/** The ranked allocation of capital (global_rotation/engine.py:161-218). The ranking
  * order is whatever the sort gives; nothing below depends on it.
  */
module Allocation {
  import opened Wrappers
  import opened Money
  import opened Rotation

  // ---- Allocation --------------------------------------------------------------

  /** The portfolio after a prepared candidate's capital is reserved. */
  function Reserve(p: Portfolio, c: Candidate): Portfolio
    requires p.currentExposure.Some? && p.openSymbols.Some?
  {
    p.(buyingPower := Max(0.0, p.buyingPower - c.size.reserved),
       currentExposure := Some(p.currentExposure.value + c.size.reserved),
       openSymbols := Some(p.openSymbols.value + [c.symbol]))
  }

  /** What one turn of the loop appends: a candidate not to be prepared as it is,
    * any other sized again against the projected portfolio. */
  function Resized(f: Facts, c: Candidate, projected: Portfolio, policy: RiskPolicy): Candidate
    requires f.Usable()
  {
    if c.category != Preparar then c else Evaluated(f, projected, policy)
  }

  ghost function AfterCandidate(f: Facts, c: Candidate, projected: Portfolio, policy: RiskPolicy): Portfolio
    requires f.Usable() && projected.Valid() && policy.Valid()
  {
    if c.category == Preparar && Evaluated(f, projected, policy).category == Preparar then
      PreparedIsVerified(f, projected, policy);
      Reserve(projected, Evaluated(f, projected, policy))
    else projected
  }

  lemma PreparedIsVerified(f: Facts, p: Portfolio, policy: RiskPolicy)
    requires f.Usable() && p.Valid() && policy.Valid() && Evaluated(f, p, policy).category == Preparar
    ensures p.currentExposure.Some? && p.openSymbols.Some? && p.qualificationPhase.Some?
    ensures f.symbol != "" && f.symbol !in p.openSymbols.value && |p.openSymbols.value| < PositionLimit(p, policy)
    ensures 0.0 < Evaluated(f, p, policy).size.reserved <= PositionCap(p, policy)
  {
    hide Evaluated, SizeBlockers, PositionCap, PositionLimit;
    PreparedFacts(f, p, policy);
    NothingBlocks(f.symbol, p, policy);
  }

  ghost function Taken(c: Candidate): real {
    if c.category == Preparar then c.size.reserved else 0.0
  }

  /** The cap leaves room in buying power and exposure. */
  lemma CapFits(p: Portfolio, policy: RiskPolicy)
    requires p.currentExposure.Some? && PositionCap(p, policy) > 0.0
    ensures PositionCap(p, policy) <= p.buyingPower
    ensures p.currentExposure.value + PositionCap(p, policy) <= ExposureLimit(p, policy)
  {
  }

  /** What one step does to the portfolio: the reserved value moves from buying
    * power to exposure, one new symbol opens, and the limits hold. */
  lemma StepKeeps(f: Facts, c: Candidate, p: Portfolio, policy: RiskPolicy)
    requires f.Usable() && p.Valid() && policy.Valid() && (c.category != Preparar ==> Taken(c) == 0.0)
    ensures var r := Resized(f, c, p, policy);
            var q := AfterCandidate(f, c, p, policy);
            && q.Valid() && Later(p, q)
            && Taken(r) >= 0.0
            && q.buyingPower == p.buyingPower - Taken(r)
            && (p.currentExposure.Some? ==> q.currentExposure.value == p.currentExposure.value + Taken(r))
            && (r.category == Preparar ==> WithinExposure(q, policy) && WithinCount(q, policy))
            && (r.category == Preparar ==>
                  p.openSymbols.Some? && q.openSymbols == Some(p.openSymbols.value + [f.symbol]))
            && (r.category != Preparar ==> q == p)
  {
    hide Evaluated, PositionCap, PositionLimit, ExposureLimit, Facts.Usable, RiskPolicy.Valid, RiskBudget;
    if c.category == Preparar {
      PreparedFacts(f, p, policy);
      if Evaluated(f, p, policy).category == Preparar {
        PreparedIsVerified(f, p, policy);
        CapFits(p, policy);
        ReserveKeepsLimits(p, Evaluated(f, p, policy), policy);
      }
    }
  }

  lemma ReserveKeepsLimits(p: Portfolio, c: Candidate, policy: RiskPolicy)
    requires p.currentExposure.Some? && p.openSymbols.Some?
    ensures PositionLimit(Reserve(p, c), policy) == PositionLimit(p, policy)
    ensures ExposureLimit(Reserve(p, c), policy) == ExposureLimit(p, policy)
  {
  }

  ghost predicate WithinExposure(p: Portfolio, policy: RiskPolicy) {
    p.currentExposure.Some? && p.currentExposure.value <= ExposureLimit(p, policy)
  }

  ghost predicate WithinCount(p: Portfolio, policy: RiskPolicy) {
    p.openSymbols.Some? && |p.openSymbols.value| <= PositionLimit(p, policy)
  }

  type Book = map<string, Facts>

  /** The candidates come from the initial evaluation of the facts filed under
    * their symbols. */
  ghost predicate Ranked(cs: seq<Candidate>, book: Book, p: Portfolio, policy: RiskPolicy) {
    && p.Valid() && policy.Valid()
    && forall k :: 0 <= k < |cs| ==> FromBook(cs[k], book, p, policy)
  }

  ghost predicate FromBook(c: Candidate, book: Book, p: Portfolio, policy: RiskPolicy) {
    && c.symbol in book && book[c.symbol].symbol == c.symbol && book[c.symbol].Usable()
    && c == Evaluated(book[c.symbol], p, policy)
  }

  /** The projected portfolio after the first n candidates. */
  ghost function Projected(cs: seq<Candidate>, book: Book, p: Portfolio, policy: RiskPolicy, n: nat): (q: Portfolio)
    requires Ranked(cs, book, p, policy) && n <= |cs|
    ensures q.Valid() && policy.Valid()
    decreases n
  {
    if n == 0 then p
    else
      var before := Projected(cs, book, p, policy, n - 1);
      assert FromBook(cs[n - 1], book, p, policy);
      AfterValid(book[cs[n - 1].symbol], cs[n - 1], before, policy);
      AfterCandidate(book[cs[n - 1].symbol], cs[n - 1], before, policy)
  }

  lemma AfterValid(f: Facts, c: Candidate, p: Portfolio, policy: RiskPolicy)
    requires f.Usable() && p.Valid() && policy.Valid()
    ensures AfterCandidate(f, c, p, policy).Valid()
  {
    hide Evaluated, PositionCap;
    if c.category == Preparar {
      if Evaluated(f, p, policy).category == Preparar {
        PreparedIsVerified(f, p, policy);
        CapFits(p, policy);
      }
    }
  }

  /** The nth candidate of the result. */
  ghost function Allotted(cs: seq<Candidate>, book: Book, p: Portfolio, policy: RiskPolicy, n: nat): Candidate
    requires Ranked(cs, book, p, policy) && n < |cs|
  {
    assert FromBook(cs[n], book, p, policy);
    Resized(book[cs[n].symbol], cs[n], Projected(cs, book, p, policy, n), policy)
  }

  ghost function Reserved(cs: seq<Candidate>, book: Book, p: Portfolio, policy: RiskPolicy, n: nat): real
    requires Ranked(cs, book, p, policy) && n <= |cs|
    decreases n
  {
    if n == 0 then 0.0
    else Reserved(cs, book, p, policy, n - 1) + Taken(Allotted(cs, book, p, policy, n - 1))
  }

  /** One pass of the loop. Both conditions that raise a RuntimeError are asserted
    * not to arise, and the new portfolio passes its own validation. */
  method AllocateRankedPreviews(cs: seq<Candidate>, book: Book, portfolio: Portfolio, policy: RiskPolicy)
    returns (previews: seq<Candidate>, projected: Portfolio)
    requires Ranked(cs, book, portfolio, policy)
    ensures |previews| == |cs|
    ensures forall k :: 0 <= k < |cs| ==> previews[k] == Allotted(cs, book, portfolio, policy, k)
    ensures projected == Projected(cs, book, portfolio, policy, |cs|)
  {
    hide Evaluate, Facts.Usable, Portfolio.Valid, RiskPolicy.Valid;
    projected := portfolio;
    previews := [];
    var i := 0;
    while i < |cs|
      invariant 0 <= i == |previews| <= |cs|
      invariant forall k :: 0 <= k < i ==> previews[k] == Allotted(cs, book, portfolio, policy, k)
      invariant projected == Projected(cs, book, portfolio, policy, i)
    {
      var candidate := cs[i];
      assert FromBook(candidate, book, portfolio, policy);
      i := i + 1;
      if candidate.category != Preparar {
        previews := previews + [candidate];
        continue;
      }
      var facts := book[candidate.symbol];
      var evaluation := Evaluate(facts, projected, policy);
      assert evaluation == Ok(Some(Evaluated(facts, projected, policy)));
      var resized := evaluation.value.value;
      previews := previews + [resized];
      if resized.category != Preparar {
        continue;
      }
      PreparedIsVerified(facts, projected, policy);
      assert projected.currentExposure.Some? && projected.openSymbols.Some? && projected.qualificationPhase.Some?;
      projected := Reserve(projected, resized);
    }
  }

  // ---- What the allocation keeps -------------------------------------------------

  lemma NextStep(cs: seq<Candidate>, book: Book, p: Portfolio, policy: RiskPolicy, n: nat)
    requires Ranked(cs, book, p, policy) && n < |cs|
    ensures var before := Projected(cs, book, p, policy, n);
            var after := Projected(cs, book, p, policy, n + 1);
            var r := Allotted(cs, book, p, policy, n);
            && before.Valid() && after.Valid() && Later(before, after)
            && Taken(r) >= 0.0
            && Reserved(cs, book, p, policy, n + 1) == Reserved(cs, book, p, policy, n) + Taken(r)
            && after.buyingPower == before.buyingPower - Taken(r)
            && (before.currentExposure.Some? ==>
                  after.currentExposure.value == before.currentExposure.value + Taken(r))
            && (r.category == Preparar ==> WithinExposure(after, policy) && WithinCount(after, policy))
            && (r.category == Preparar ==>
                  before.openSymbols.Some? && after.openSymbols == Some(before.openSymbols.value + [cs[n].symbol]))
            && (r.category != Preparar ==> after == before)
  {
    hide Evaluated, Facts.Usable, WithinExposure, WithinCount, Later;
    assert FromBook(cs[n], book, p, policy);
    PreparedFacts(book[cs[n].symbol], p, policy);
    StepKeeps(book[cs[n].symbol], cs[n], Projected(cs, book, p, policy, n), policy);
  }

  lemma LaterComposes(p: Portfolio, q: Portfolio, r: Portfolio)
    requires Later(p, q) && Later(q, r)
    ensures Later(p, r)
  {
  }

  lemma LaterKeepsLimits(p: Portfolio, q: Portfolio, policy: RiskPolicy)
    requires Later(p, q)
    ensures PositionLimit(q, policy) == PositionLimit(p, policy)
    ensures ExposureLimit(q, policy) == ExposureLimit(p, policy)
    ensures q.currentExposure.Some? == p.currentExposure.Some? && q.openSymbols.Some? == p.openSymbols.Some?
  {
  }

  /** Over the whole pass: exposure grows and buying power falls by exactly the sum
    * of what is reserved, and both limits hold unless they were passed before. */
  lemma {:induction false} AllocationConserves(cs: seq<Candidate>, book: Book, p: Portfolio, policy: RiskPolicy, n: nat)
    requires Ranked(cs, book, p, policy) && n <= |cs|
    ensures var q := Projected(cs, book, p, policy, n);
            && q.Valid() && Later(p, q)
            && Reserved(cs, book, p, policy, n) >= 0.0
            && q.buyingPower == p.buyingPower - Reserved(cs, book, p, policy, n)
            && (p.currentExposure.Some? ==>
                  && q.currentExposure.value == p.currentExposure.value + Reserved(cs, book, p, policy, n)
                  && q.currentExposure.value <= Max(p.currentExposure.value, ExposureLimit(p, policy)))
            && (p.openSymbols.Some? ==>
                  && Distinct(q.openSymbols.value)
                  && (|q.openSymbols.value| <= |p.openSymbols.value|
                      || |q.openSymbols.value| <= PositionLimit(p, policy)))
            && (p.currentExposure.None? || p.openSymbols.None? ==> q == p)
    decreases n
  {
    hide Ranked, Allotted, Taken, Later, PositionLimit, ExposureLimit, Projected, Reserved;
    if n == 0 {
      ProjectedStart(cs, book, p, policy);
    } else {
      AllocationConserves(cs, book, p, policy, n - 1);
      NextStep(cs, book, p, policy, n - 1);
      var before, q := Projected(cs, book, p, policy, n - 1), Projected(cs, book, p, policy, n);
      LaterComposes(p, before, q);
      LaterKeepsLimits(p, before, policy);
      LaterKeepsLimits(p, q, policy);
      if p.currentExposure.None? || p.openSymbols.None? {
        NothingWithoutTruth(cs, book, p, policy, n - 1);
      }
    }
  }

  lemma ProjectedStart(cs: seq<Candidate>, book: Book, p: Portfolio, policy: RiskPolicy)
    requires Ranked(cs, book, p, policy)
    ensures Projected(cs, book, p, policy, 0) == p && Reserved(cs, book, p, policy, 0) == 0.0
    ensures p.Valid() && Later(p, p)
  {
  }

  lemma NothingWithoutTruth(cs: seq<Candidate>, book: Book, p: Portfolio, policy: RiskPolicy, n: nat)
    requires Ranked(cs, book, p, policy) && n < |cs| && (p.currentExposure.None? || p.openSymbols.None?)
    ensures Allotted(cs, book, p, policy, n).category != Preparar
  {
    hide Evaluated, Facts.Usable;
    assert FromBook(cs[n], book, p, policy);
    if cs[n].category == Preparar {
      PreparedIsVerified(book[cs[n].symbol], p, policy);
    }
  }

  /** Each candidate of the result: the same symbol, never a larger quantity, to be
    * prepared exactly when its quantity is not zero, within the risk budget and
    * what was left of the buying power; one skipped by the pass would not have been
    * prepared by it either. */
  lemma AllottedFacts(cs: seq<Candidate>, book: Book, p: Portfolio, policy: RiskPolicy, n: nat)
    requires Ranked(cs, book, p, policy) && n < |cs|
    ensures var r := Allotted(cs, book, p, policy, n);
            var q := Projected(cs, book, p, policy, n);
            && r.symbol == cs[n].symbol
            && 0.0 <= r.size.quantity <= cs[n].size.quantity
            && (r.category == Preparar <==> r.size.quantity != 0.0)
            && r.size.plannedLoss <= RiskBudget(p, policy)
            && (r.category == Preparar ==>
                  cs[n].category == Preparar && 0.0 < r.size.reserved <= PositionCap(q, policy))
            && cs[n].symbol in book && book[cs[n].symbol].Usable()
            && (var again := Evaluated(book[cs[n].symbol], q, policy);
                again.category == r.category && again.size.quantity == r.size.quantity)
  {
    hide Evaluated, Facts.Usable, Later, PositionCap, Projected, RiskBudget;
    assert FromBook(cs[n], book, p, policy);
    var f := book[cs[n].symbol];
    var q := Projected(cs, book, p, policy, n);
    AllocationConserves(cs, book, p, policy, n);
    PreparedFacts(f, p, policy);
    PreparedFacts(f, q, policy);
    SizingShrinks(f, p, q, policy);
    LimitsStay(p, q, policy);
  }

  /** A candidate not to be prepared is passed on as it was; any other is evaluated
    * afresh, every field of it, against what the candidates before it left. */
  lemma AllottedByLaw(cs: seq<Candidate>, book: Book, p: Portfolio, policy: RiskPolicy, n: nat)
    requires Ranked(cs, book, p, policy) && n < |cs|
    ensures var r, q := Allotted(cs, book, p, policy, n), Projected(cs, book, p, policy, n);
            && cs[n].symbol in book
            && (if cs[n].category == Preparar then CandidateByLaw(book[cs[n].symbol], q, policy, r) else r == cs[n])
            && q.equity == p.equity && q.realizedLossToday == p.realizedLossToday
            && q.qualificationPhase == p.qualificationPhase
  {
    hide Evaluated, Facts.Usable, CandidateByLaw, Projected;
    assert FromBook(cs[n], book, p, policy);
    AllocationConserves(cs, book, p, policy, n);
    EvaluatesByLaw(book[cs[n].symbol], Projected(cs, book, p, policy, n), policy);
  }

  /** No symbol is prepared twice. */
  lemma PreparedOnce(cs: seq<Candidate>, book: Book, p: Portfolio, policy: RiskPolicy, i: nat, j: nat)
    requires Ranked(cs, book, p, policy) && i < j < |cs|
    requires Allotted(cs, book, p, policy, i).category == Preparar
    requires Allotted(cs, book, p, policy, j).category == Preparar
    ensures cs[i].symbol != cs[j].symbol
  {
    hide Allotted, Projected, Later;
    NextStep(cs, book, p, policy, i);
    NextStep(cs, book, p, policy, j);
    OpenStays(cs, book, p, policy, i + 1, j);
    var open := Projected(cs, book, p, policy, j).openSymbols.value;
    var after := Projected(cs, book, p, policy, j + 1).openSymbols.value;
    assert after == open + [cs[j].symbol];
    assert cs[i].symbol in open by {
      var first := Projected(cs, book, p, policy, i + 1).openSymbols.value;
      assert first[|first| - 1] == cs[i].symbol;
      assert open[|first| - 1] == cs[i].symbol;
    }
    var k :| 0 <= k < |open| && open[k] == cs[i].symbol;
    assert after[k] != after[|open|];
  }

  lemma {:induction false} OpenStays(cs: seq<Candidate>, book: Book, p: Portfolio, policy: RiskPolicy, i: nat, j: nat)
    requires Ranked(cs, book, p, policy) && i <= j <= |cs|
    requires Projected(cs, book, p, policy, i).openSymbols.Some?
    ensures Projected(cs, book, p, policy, j).openSymbols.Some?
    ensures Projected(cs, book, p, policy, i).openSymbols.value <= Projected(cs, book, p, policy, j).openSymbols.value
    decreases j
  {
    hide Allotted, Projected;
    if i < j {
      OpenStays(cs, book, p, policy, i, j - 1);
      NextStep(cs, book, p, policy, j - 1);
    }
  }
}
