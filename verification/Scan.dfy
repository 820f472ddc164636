/** The scan of a universe of instruments (global_rotation/engine.py:67-159): the
  * first pass, the ranking, the ranked allocation and the final list.
  */
module Scan {
  import opened Wrappers
  import opened Money
  import opened Rotation
  import opened Allocation

  /** What the histories hold for an instrument. */
  datatype History = Missing | Malformed | Clean

  datatype Instrument = Instrument(regionConfigured: bool, history: History, facts: Facts) {
    function Symbol(): string { facts.symbol }

    predicate Readable() { regionConfigured && history == Clean }

    /** `_evaluate` returns a candidate. */
    predicate Yields() { Readable() && facts.Usable() }

    /** Sizing refuses the prices, and the whole scan with them. */
    predicate Fails() { Readable() && (facts.eduPass || facts.volcanoPass) && !facts.Usable() }
  }

  datatype RejectionReason =
    | DuplicateUniverseSymbol
    | RegionNotConfigured
    | HistoryUnavailable
    | HistoryMalformed
    | BelowThresholds

  datatype Rejection = Rejection(symbol: string, reason: RejectionReason)

  predicate FirstAt(instruments: seq<Instrument>, i: nat)
    requires i < |instruments|
  {
    forall j :: 0 <= j < i ==> instruments[j].Symbol() != instruments[i].Symbol()
  }

  /** Why the ith instrument is rejected; None when it is not. */
  function ReasonAt(instruments: seq<Instrument>, i: nat): Option<RejectionReason>
    requires i < |instruments|
  {
    var it := instruments[i];
    if !FirstAt(instruments, i) then Some(DuplicateUniverseSymbol)
    else if !it.regionConfigured then Some(RegionNotConfigured)
    else if it.history == Missing then Some(HistoryUnavailable)
    else if it.history == Malformed then Some(HistoryMalformed)
    else if !it.facts.eduPass && !it.facts.volcanoPass then Some(BelowThresholds)
    else None
  }

  function Candidates(instruments: seq<Instrument>, p: Portfolio, policy: RiskPolicy, n: nat): seq<Candidate>
    requires n <= |instruments|
    decreases n
  {
    if n == 0 then []
    else
      var before := Candidates(instruments, p, policy, n - 1);
      if FirstAt(instruments, n - 1) && instruments[n - 1].Yields()
      then before + [Evaluated(instruments[n - 1].facts, p, policy)] else before
  }

  function Rejections(instruments: seq<Instrument>, n: nat): seq<Rejection>
    requires n <= |instruments|
    decreases n
  {
    if n == 0 then []
    else
      var reason := ReasonAt(instruments, n - 1);
      Rejections(instruments, n - 1)
      + if reason.Some? then [Rejection(instruments[n - 1].Symbol(), reason.value)] else []
  }

  function ReadableIn(instruments: seq<Instrument>, n: nat): nat
    requires n <= |instruments|
    decreases n
  {
    if n == 0 then 0
    else ReadableIn(instruments, n - 1)
         + if FirstAt(instruments, n - 1) && instruments[n - 1].Readable() then 1 else 0
  }

  predicate Healthy(instruments: seq<Instrument>) {
    forall i :: 0 <= i < |instruments| && FirstAt(instruments, i) ==> !instruments[i].Fails()
  }

  datatype Pass = Pass(candidates: seq<Candidate>, rejected: seq<Rejection>, valid: nat)

  /** The loop of `scan`; it raises exactly when some first-listed instrument has
    * prices that sizing refuses. */
  method FirstPass(instruments: seq<Instrument>, p: Portfolio, policy: RiskPolicy)
    returns (r: Result<Pass, PriceError>)
    ensures r.Ok? <==> Healthy(instruments)
    ensures r.Ok? ==>
              var n := |instruments|;
              && r.value.candidates == Candidates(instruments, p, policy, n)
              && r.value.rejected == Rejections(instruments, n)
              && r.value.valid == ReadableIn(instruments, n)
  {
    hide Evaluate, Facts.Usable, Evaluated, FirstAt, Seen;
    var candidates: seq<Candidate> := [];
    var rejected: seq<Rejection> := [];
    var seen: set<string> := {};
    assert Seen(instruments, 0, seen) by { NothingSeen(instruments); }
    var valid := 0;
    var i := 0;
    while i < |instruments|
      invariant 0 <= i <= |instruments|
      invariant Seen(instruments, i, seen)
      invariant candidates == Candidates(instruments, p, policy, i)
      invariant rejected == Rejections(instruments, i)
      invariant valid == ReadableIn(instruments, i)
      invariant forall j :: 0 <= j < i && FirstAt(instruments, j) ==> !instruments[j].Fails()
    {
      var it := instruments[i];
      var symbol := it.Symbol();
      SeenStep(instruments, i, seen);
      i := i + 1;
      if symbol in seen {
        rejected := rejected + [Rejection(symbol, DuplicateUniverseSymbol)];
        continue;
      }
      seen := seen + {symbol};
      if !it.regionConfigured {
        rejected := rejected + [Rejection(symbol, RegionNotConfigured)];
        continue;
      }
      if it.history == Missing {
        rejected := rejected + [Rejection(symbol, HistoryUnavailable)];
        continue;
      }
      if it.history == Malformed {
        rejected := rejected + [Rejection(symbol, HistoryMalformed)];
        continue;
      }
      valid := valid + 1;
      var evaluation := Evaluate(it.facts, p, policy);
      EvaluationCases(it.facts, p, policy);
      if evaluation.Err? {
        return Err(evaluation.error);
      }
      if evaluation.value.None? {
        rejected := rejected + [Rejection(symbol, BelowThresholds)];
      } else {
        candidates := candidates + [evaluation.value.value];
      }
    }
    r := Ok(Pass(candidates, rejected, valid));
  }

  ghost predicate Seen(instruments: seq<Instrument>, n: nat, seen: set<string>)
    requires n <= |instruments|
  {
    forall s :: s in seen <==> exists j :: 0 <= j < n && instruments[j].Symbol() == s
  }

  lemma NothingSeen(instruments: seq<Instrument>)
    ensures Seen(instruments, 0, {})
  {
  }

  lemma SeenStep(instruments: seq<Instrument>, i: nat, seen: set<string>)
    requires i < |instruments| && Seen(instruments, i, seen)
    ensures var symbol := instruments[i].Symbol();
            && (symbol in seen <==> !FirstAt(instruments, i))
            && Seen(instruments, i + 1, seen + {symbol})
            && (symbol in seen ==> Seen(instruments, i + 1, seen))
  {
  }

  lemma EvaluationCases(f: Facts, p: Portfolio, policy: RiskPolicy)
    ensures var e := Evaluate(f, p, policy);
            && (e.Err? <==> (f.eduPass || f.volcanoPass) && !f.Usable())
            && (e.Ok? && e.value.None? <==> !f.eduPass && !f.volcanoPass)
            && (f.Usable() ==> e == Ok(Some(Evaluated(f, p, policy))))
  {
    hide Sized, BlockedPreview, CategoryOf;
  }

  /** Every instrument is a candidate or a rejection, once. */
  lemma {:induction false} EveryInstrumentCounts(instruments: seq<Instrument>, p: Portfolio, policy: RiskPolicy, n: nat)
    requires n <= |instruments| && Healthy(instruments)
    ensures |Candidates(instruments, p, policy, n)| + |Rejections(instruments, n)| == n
    ensures |Candidates(instruments, p, policy, n)| <= ReadableIn(instruments, n) <= n
    decreases n
  {
    hide Evaluated, Facts.Usable, FirstAt;
    if n > 0 {
      EveryInstrumentCounts(instruments, p, policy, n - 1);
    }
  }

  /** The instruments counted as valid are those first listed with their symbol whose
    * region is configured and whose history is clean. */
  lemma {:induction false} ValidAreReadable(instruments: seq<Instrument>, n: nat)
    requires n <= |instruments|
    ensures ReadableIn(instruments, n)
            == |set i | 0 <= i < n && FirstAt(instruments, i) && instruments[i].regionConfigured
                        && instruments[i].history == Clean|
    decreases n
  {
    hide FirstAt;
    if n > 0 {
      ValidAreReadable(instruments, n - 1);
      var before := set i | 0 <= i < n - 1 && FirstAt(instruments, i) && instruments[i].regionConfigured
                            && instruments[i].history == Clean;
      var all := set i | 0 <= i < n && FirstAt(instruments, i) && instruments[i].regionConfigured
                         && instruments[i].history == Clean;
      assert n - 1 !in before;
      if n - 1 in all {
        assert all == before + {n - 1};
      } else {
        assert all == before;
      }
    }
  }

  /** A rejection stands in the list exactly when some instrument was rejected so. */
  lemma {:induction false} RejectionsAre(instruments: seq<Instrument>, n: nat, rejection: Rejection)
    requires n <= |instruments|
    ensures rejection in Rejections(instruments, n) <==>
              exists i :: 0 <= i < n && instruments[i].Symbol() == rejection.symbol
                       && ReasonAt(instruments, i) == Some(rejection.reason)
    decreases n
  {
    hide ReasonAt;
    if n > 0 {
      RejectionsAre(instruments, n - 1, rejection);
    }
  }

  /** What is rejected and why, by symbol: repeats as duplicates, and the first
    * instrument listed with the symbol for the first thing it lacks, of a configured
    * region, a history, a clean one, and a scanner that passes. */
  lemma RejectedExactly(instruments: seq<Instrument>, i: nat)
    requires i < |instruments| && FirstAt(instruments, i)
    ensures var rejected, it, s := Rejections(instruments, |instruments|), instruments[i], instruments[i].Symbol();
            && (Rejection(s, DuplicateUniverseSymbol) in rejected <==>
                  exists j :: i < j < |instruments| && instruments[j].Symbol() == s)
            && (Rejection(s, RegionNotConfigured) in rejected <==> !it.regionConfigured)
            && (Rejection(s, HistoryUnavailable) in rejected <==> it.regionConfigured && it.history == Missing)
            && (Rejection(s, HistoryMalformed) in rejected <==> it.regionConfigured && it.history == Malformed)
            && (Rejection(s, BelowThresholds) in rejected <==>
                  it.regionConfigured && it.history == Clean && !it.facts.eduPass && !it.facts.volcanoPass)
  {
    hide Rejections, FirstAt, ReasonAt;
    var s := instruments[i].Symbol();
    forall reason: RejectionReason
      ensures Rejection(s, reason) in Rejections(instruments, |instruments|) <==>
                exists j :: 0 <= j < |instruments| && instruments[j].Symbol() == s
                         && ReasonAt(instruments, j) == Some(reason)
    {
      RejectionsAre(instruments, |instruments|, Rejection(s, reason));
    }
    forall j | 0 <= j < |instruments| && instruments[j].Symbol() == s
      ensures i <= j && (j > i ==> ReasonAt(instruments, j) == Some(DuplicateUniverseSymbol))
    {
      LaterIsDuplicate(instruments, i, j);
    }
    FirstReason(instruments, i);
  }

  lemma LaterIsDuplicate(instruments: seq<Instrument>, i: nat, j: nat)
    requires i < |instruments| && j < |instruments| && FirstAt(instruments, i)
    requires instruments[i].Symbol() == instruments[j].Symbol()
    ensures i <= j && (j > i ==> ReasonAt(instruments, j) == Some(DuplicateUniverseSymbol))
  {
  }

  lemma FirstReason(instruments: seq<Instrument>, i: nat)
    requires i < |instruments| && FirstAt(instruments, i)
    ensures var it, reason := instruments[i], ReasonAt(instruments, i);
            && reason != Some(DuplicateUniverseSymbol)
            && (reason == Some(RegionNotConfigured) <==> !it.regionConfigured)
            && (reason == Some(HistoryUnavailable) <==> it.regionConfigured && it.history == Missing)
            && (reason == Some(HistoryMalformed) <==> it.regionConfigured && it.history == Malformed)
            && (reason == Some(BelowThresholds) <==>
                  it.regionConfigured && it.history == Clean && !it.facts.eduPass && !it.facts.volcanoPass)
  {
  }

  /** The facts filed under each symbol: those of the first instrument listed with
    * it (`setdefault`). */
  function BookOf(instruments: seq<Instrument>, n: nat): (book: map<string, Facts>)
    requires n <= |instruments|
    ensures forall s :: s in book <==> exists i :: 0 <= i < n && instruments[i].Symbol() == s
    decreases n
  {
    if n == 0 then map[]
    else
      var book := BookOf(instruments, n - 1);
      var s := instruments[n - 1].Symbol();
      if s in book then book else book[s := instruments[n - 1].facts]
  }

  lemma {:induction false} FirstIsFiled(instruments: seq<Instrument>, i: nat, n: nat)
    requires i < n <= |instruments| && FirstAt(instruments, i)
    ensures var s := instruments[i].Symbol();
            s in BookOf(instruments, n) && BookOf(instruments, n)[s] == instruments[i].facts
    decreases n
  {
    if n > i + 1 {
      FirstIsFiled(instruments, i, n - 1);
    }
  }

  lemma {:induction false} CandidateSource(instruments: seq<Instrument>, p: Portfolio, policy: RiskPolicy, n: nat,
                                           k: nat) returns (i: nat)
    requires n <= |instruments| && k < |Candidates(instruments, p, policy, n)|
    ensures i < n && FirstAt(instruments, i) && instruments[i].Yields()
    ensures Candidates(instruments, p, policy, n)[k] == Evaluated(instruments[i].facts, p, policy)
    decreases n
  {
    hide Evaluated, Facts.Usable, FirstAt;
    if k < |Candidates(instruments, p, policy, n - 1)| {
      i := CandidateSource(instruments, p, policy, n - 1, k);
    } else {
      i := n - 1;
    }
  }

  /** In whatever order the candidates of a pass are ranked, the allocation finds
    * each one's instrument and reproduces its evaluation. */
  lemma RankingIsReproducible(instruments: seq<Instrument>, ranked: seq<Candidate>, p: Portfolio, policy: RiskPolicy)
    requires p.Valid() && policy.Valid()
    requires multiset(ranked) == multiset(Candidates(instruments, p, policy, |instruments|))
    ensures Ranked(ranked, BookOf(instruments, |instruments|), p, policy)
  {
    hide Evaluated, Facts.Usable, FirstAt, Candidates, BookOf, Portfolio.Valid, RiskPolicy.Valid;
    var n := |instruments|;
    var cs := Candidates(instruments, p, policy, n);
    forall k | 0 <= k < |ranked| ensures FromBook(ranked[k], BookOf(instruments, n), p, policy) {
      assert ranked[k] in multiset(ranked);
      assert ranked[k] in cs;
      var j :| 0 <= j < |cs| && cs[j] == ranked[k];
      var i := CandidateSource(instruments, p, policy, n, j);
      FirstIsFiled(instruments, i, n);
    }
  }

  /** No two candidates of a pass share a symbol. */
  lemma {:induction false} CandidatesAreDistinct(instruments: seq<Instrument>, p: Portfolio, policy: RiskPolicy, n: nat)
    requires n <= |instruments|
    ensures var cs := Candidates(instruments, p, policy, n);
            forall i, j :: 0 <= i < j < |cs| ==> cs[i].symbol != cs[j].symbol
    decreases n
  {
    hide Evaluated, Facts.Usable;
    if n > 0 {
      CandidatesAreDistinct(instruments, p, policy, n - 1);
      var cs := Candidates(instruments, p, policy, n);
      var before := Candidates(instruments, p, policy, n - 1);
      forall i, j | 0 <= i < j < |cs| ensures cs[i].symbol != cs[j].symbol {
        var source := CandidateSource(instruments, p, policy, n - 1, i);
        assert cs[i] == before[i];
        if j < |before| {
          assert cs[j] == before[j];
        }
      }
    }
  }

  // ---- Ranking -------------------------------------------------------------------

  function CategoryOrder(category: Category): nat {
    match category
    case Preparar => 0
    case Esperar => 1
    case Vigilar => 2
    case NoPerseguir => 3
  }

  predicate AtMost(a: string, b: string) {
    a == "" || (b != "" && (a[0] < b[0] || (a[0] == b[0] && AtMost(a[1..], b[1..]))))
  }

  lemma {:induction false} AtMostIsTotal(a: string, b: string)
    ensures AtMost(a, b) || AtMost(b, a)
  {
    if a != "" && b != "" {
      AtMostIsTotal(a[1..], b[1..]);
    }
  }

  /** The sort key compared: category, then score, then reward-risk, both falling,
    * then symbol. */
  predicate NoLater(a: Candidate, b: Candidate) {
    var x, y := CategoryOrder(a.category), CategoryOrder(b.category);
    x < y || (x == y && (a.score > b.score || (a.score == b.score &&
      (a.rewardRisk > b.rewardRisk || (a.rewardRisk == b.rewardRisk && AtMost(a.symbol, b.symbol))))))
  }

  lemma NoLaterIsTotal(a: Candidate, b: Candidate)
    ensures NoLater(a, b) || NoLater(b, a)
  {
    hide AtMost, CategoryOrder;
    AtMostIsTotal(a.symbol, b.symbol);
  }

  predicate InRankOrder(cs: seq<Candidate>) {
    forall i :: 0 < i < |cs| ==> NoLater(cs[i - 1], cs[i])
  }

  function Placed(c: Candidate, cs: seq<Candidate>): (r: seq<Candidate>)
    requires InRankOrder(cs)
    ensures InRankOrder(r) && |r| == |cs| + 1
    ensures r[0] == c || (cs != [] && r[0] == cs[0])
  {
    if cs == [] then [c]
    else if NoLater(c, cs[0]) then [c] + cs
    else
      NoLaterIsTotal(c, cs[0]);
      [cs[0]] + Placed(c, cs[1..])
  }

  function ByRank(cs: seq<Candidate>): (r: seq<Candidate>)
    ensures InRankOrder(r) && |r| == |cs|
  {
    if cs == [] then [] else Placed(cs[0], ByRank(cs[1..]))
  }

  lemma {:induction false} PlacedKeeps(c: Candidate, cs: seq<Candidate>)
    requires InRankOrder(cs)
    ensures multiset(Placed(c, cs)) == multiset(cs) + multiset{c}
  {
    hide NoLater;
    if cs != [] && !NoLater(c, cs[0]) {
      PlacedKeeps(c, cs[1..]);
      assert cs == [cs[0]] + cs[1..];
    }
  }

  lemma {:induction false} ByRankPermutes(cs: seq<Candidate>)
    ensures multiset(ByRank(cs)) == multiset(cs)
  {
    if cs != [] {
      ByRankPermutes(cs[1..]);
      PlacedKeeps(cs[0], ByRank(cs[1..]));
      assert cs == [cs[0]] + cs[1..];
    }
  }

  // ---- What the order means --------------------------------------------------------

  /** Rank order in plain terms: what is to be prepared comes before what waits, that
    * before what is only watched, and what is chased comes last; among equals the
    * higher score comes first, then the higher reward for the risk, then the symbol
    * that comes first in the alphabet. */
  predicate ListedBefore(a: Candidate, b: Candidate) {
    && (b.category == Preparar ==> a.category == Preparar)
    && (b.category == Esperar ==> a.category == Preparar || a.category == Esperar)
    && (a.category == NoPerseguir ==> b.category == NoPerseguir)
    && (a.category == b.category ==>
          && a.score >= b.score
          && (a.score == b.score ==>
                && a.rewardRisk >= b.rewardRisk
                && (a.rewardRisk == b.rewardRisk ==> AtMost(a.symbol, b.symbol))))
  }

  lemma OrderInPlainTerms(a: Candidate, b: Candidate)
    ensures NoLater(a, b) <==> ListedBefore(a, b)
  {
    hide AtMost;
  }

  /** `AtMost` is the dictionary order: equal, a prefix, or smaller at the first
    * character where the two differ. */
  lemma {:induction false} AtMostIsLexicographic(a: string, b: string)
    ensures AtMost(a, b) <==>
              || a <= b
              || exists k :: 0 <= k < |a| && k < |b| && a[..k] == b[..k] && a[k] < b[k]
  {
    if a != "" && b != "" {
      var x, y := a[1..], b[1..];
      AtMostIsLexicographic(x, y);
      if a[0] == b[0] {
        assert a == [a[0]] + x && b == [b[0]] + y;
        if k :| 0 <= k < |x| && k < |y| && x[..k] == y[..k] && x[k] < y[k] {
          assert a[..k + 1] == [a[0]] + x[..k] && b[..k + 1] == [b[0]] + y[..k];
          assert a[k + 1] < b[k + 1];
        }
        if k :| 0 <= k < |a| && k < |b| && a[..k] == b[..k] && a[k] < b[k] {
          SharedHead(a, b, k);
        }
      } else if a[0] < b[0] {
        assert a[..0] == b[..0];
      } else {
        if k :| 0 <= k < |a| && k < |b| && a[..k] == b[..k] && a[k] < b[k] {
          SharedStart(a, b, k);
        }
      }
    }
  }

  lemma SharedHead(a: string, b: string, k: nat)
    requires 0 < |a| && 0 < |b| && k < |a| && k < |b| && a[..k] == b[..k] && a[k] < b[k] && a[0] == b[0]
    ensures k > 0 && a[1..][..k - 1] == b[1..][..k - 1] && a[1..][k - 1] < b[1..][k - 1]
  {
    assert a[1..][..k - 1] == a[..k][1..] && b[1..][..k - 1] == b[..k][1..];
  }

  lemma SharedStart(a: string, b: string, k: nat)
    requires k < |a| && k < |b| && a[..k] == b[..k]
    ensures k > 0 ==> a[0] == b[0]
  {
    if k > 0 {
      assert a[..k][0] == b[..k][0];
    }
  }

  lemma {:induction false} AtMostIsTransitive(a: string, b: string, c: string)
    requires AtMost(a, b) && AtMost(b, c)
    ensures AtMost(a, c)
  {
    if a != "" && a[0] == b[0] == c[0] {
      AtMostIsTransitive(a[1..], b[1..], c[1..]);
    }
  }

  lemma {:induction false} AtMostBothWays(a: string, b: string)
    requires AtMost(a, b) && AtMost(b, a)
    ensures a == b
  {
    if a != "" {
      AtMostBothWays(a[1..], b[1..]);
      assert a == [a[0]] + a[1..] && b == [b[0]] + b[1..];
    }
  }

  lemma NoLaterIsTransitive(a: Candidate, b: Candidate, c: Candidate)
    requires NoLater(a, b) && NoLater(b, c)
    ensures NoLater(a, c)
  {
    hide AtMost, CategoryOrder;
    if AtMost(a.symbol, b.symbol) && AtMost(b.symbol, c.symbol) {
      AtMostIsTransitive(a.symbol, b.symbol, c.symbol);
    }
  }

  lemma NoLaterBothWays(a: Candidate, b: Candidate)
    requires NoLater(a, b) && NoLater(b, a)
    ensures a.symbol == b.symbol
  {
    hide AtMost, CategoryOrder;
    AtMostBothWays(a.symbol, b.symbol);
  }

  /** Ranked neighbours give ranked pairs. */
  lemma {:induction false} RankedPairs(cs: seq<Candidate>, i: nat, j: nat)
    requires InRankOrder(cs) && i < j < |cs|
    ensures NoLater(cs[i], cs[j])
    decreases j
  {
    hide NoLater;
    assert NoLater(cs[j - 1], cs[j]);
    if i < j - 1 {
      RankedPairs(cs, i, j - 1);
      NoLaterIsTransitive(cs[i], cs[j - 1], cs[j]);
    }
  }

  /** `listed` is the best of `all`: as many as the limit allows, in order, and none
    * that is left out comes before one that is listed. */
  ghost predicate BestOf(all: seq<Candidate>, listed: seq<Candidate>, limit: nat) {
    && |listed| == (if |all| <= limit then |all| else limit)
    && (forall i, j :: 0 <= i < j < |listed| ==> ListedBefore(listed[i], listed[j]))
    && exists left: seq<Candidate> ::
         && multiset(all) == multiset(listed) + multiset(left)
         && forall a, b :: a in listed && b in left ==> ListedBefore(a, b)
  }

  lemma FirstIsBest(cs: seq<Candidate>, limit: nat)
    ensures BestOf(cs, First(ByRank(cs), limit), limit)
  {
    hide NoLater, ListedBefore, ByRank, InRankOrder;
    var ranked := ByRank(cs);
    var listed := First(ranked, limit);
    var left := ranked[|listed|..];
    ByRankPermutes(cs);
    assert ranked == listed + left;
    forall i, j | 0 <= i < j < |ranked| ensures ListedBefore(ranked[i], ranked[j]) {
      RankedPairs(ranked, i, j);
      OrderInPlainTerms(ranked[i], ranked[j]);
    }
    assert forall i :: 0 <= i < |listed| ==> listed[i] == ranked[i];
    forall a, b | a in listed && b in left ensures ListedBefore(a, b) {
      var i :| 0 <= i < |listed| && listed[i] == a;
      var j :| 0 <= j < |left| && left[j] == b;
      assert left[j] == ranked[|listed| + j];
    }
  }

  /** Candidates of different symbols have one ranking, in whatever order they are
    * found. */
  lemma {:induction false} OneRanking(a: seq<Candidate>, b: seq<Candidate>)
    requires InRankOrder(a) && InRankOrder(b) && multiset(a) == multiset(b)
    requires forall i, j :: 0 <= i < j < |a| ==> a[i].symbol != a[j].symbol
    ensures a == b
  {
    hide NoLater;
    assert |multiset(a)| == |multiset(b)|;
    if a != [] {
      SameFirst(a, b);
      WithoutFirst(a);
      WithoutFirst(b);
      OneRanking(a[1..], b[1..]);
      assert a == [a[0]] + a[1..] && b == [b[0]] + b[1..];
    }
  }

  lemma WithoutFirst(a: seq<Candidate>)
    requires a != []
    ensures multiset(a[1..]) == multiset(a) - multiset{a[0]}
  {
    assert a == [a[0]] + a[1..];
  }

  lemma SameFirst(a: seq<Candidate>, b: seq<Candidate>)
    requires InRankOrder(a) && InRankOrder(b) && multiset(a) == multiset(b) && a != [] && b != []
    requires forall i, j :: 0 <= i < j < |a| ==> a[i].symbol != a[j].symbol
    ensures a[0] == b[0]
  {
    hide NoLater, InRankOrder;
    assert a[0] in multiset(b) && b[0] in multiset(a);
    var i :| 0 <= i < |b| && b[i] == a[0];
    var j :| 0 <= j < |a| && a[j] == b[0];
    if i > 0 && j > 0 {
      RankedPairs(b, 0, i);
      RankedPairs(a, 0, j);
      NoLaterBothWays(a[0], b[0]);
    }
  }

  lemma RankingIgnoresOrder(cs: seq<Candidate>, ds: seq<Candidate>)
    requires multiset(cs) == multiset(ds)
    requires forall i, j :: 0 <= i < j < |cs| ==> cs[i].symbol != cs[j].symbol
    ensures ByRank(cs) == ByRank(ds)
  {
    hide NoLater, InRankOrder, ByRank;
    ByRankPermutes(cs);
    ByRankPermutes(ds);
    DistinctPermutes(cs, ByRank(cs));
    OneRanking(ByRank(cs), ByRank(ds));
  }

  lemma DistinctPermutes(cs: seq<Candidate>, ds: seq<Candidate>)
    requires multiset(cs) == multiset(ds)
    requires forall i, j :: 0 <= i < j < |cs| ==> cs[i].symbol != cs[j].symbol
    ensures forall i, j :: 0 <= i < j < |ds| ==> ds[i].symbol != ds[j].symbol
  {
    forall i, j | 0 <= i < j < |ds| ensures ds[i].symbol != ds[j].symbol {
      if ds[i].symbol == ds[j].symbol {
        assert ds[i] in multiset(cs) && ds[j] in multiset(cs);
        var k :| 0 <= k < |cs| && cs[k] == ds[i];
        var l :| 0 <= l < |cs| && cs[l] == ds[j];
        assert k == l;
        TwiceIn(ds, i, j);
        OnceIn(cs, k);
      }
    }
  }

  lemma TwiceIn(ds: seq<Candidate>, i: nat, j: nat)
    requires i < j < |ds| && ds[i] == ds[j]
    ensures multiset(ds)[ds[i]] >= 2
  {
    assert ds == ds[..j] + [ds[j]] + ds[j + 1..];
    assert ds[..j][i] == ds[i];
    assert ds[i] in ds[..j];
  }

  lemma OnceIn(cs: seq<Candidate>, k: nat)
    requires k < |cs| && forall i, j :: 0 <= i < j < |cs| ==> cs[i].symbol != cs[j].symbol
    ensures multiset(cs)[cs[k]] == 1
  {
    assert cs == cs[..k] + [cs[k]] + cs[k + 1..];
    assert cs[k] !in cs[..k] && cs[k] !in cs[k + 1..];
  }

  // ---- The whole scan --------------------------------------------------------------

  datatype ScanResult = ScanResult(candidates: seq<Candidate>, rejected: seq<Rejection>, scanned: nat, valid: nat)

  function Ranking(instruments: seq<Instrument>, p: Portfolio, policy: RiskPolicy): seq<Candidate> {
    ByRank(Candidates(instruments, p, policy, |instruments|))
  }

  lemma RankingIsRanked(instruments: seq<Instrument>, p: Portfolio, policy: RiskPolicy)
    requires p.Valid() && policy.Valid()
    ensures Ranked(Ranking(instruments, p, policy), BookOf(instruments, |instruments|), p, policy)
  {
    hide Candidates, ByRank, BookOf, Ranked;
    ByRankPermutes(Candidates(instruments, p, policy, |instruments|));
    RankingIsReproducible(instruments, Ranking(instruments, p, policy), p, policy);
  }

  /** The previews of the allocation, in ranking order. */
  ghost function Previews(cs: seq<Candidate>, book: Book, p: Portfolio, policy: RiskPolicy, n: nat): seq<Candidate>
    requires Ranked(cs, book, p, policy) && n <= |cs|
    decreases n
  {
    if n == 0 then [] else Previews(cs, book, p, policy, n - 1) + [Allotted(cs, book, p, policy, n - 1)]
  }

  lemma {:induction false} PreviewsAre(cs: seq<Candidate>, book: Book, p: Portfolio, policy: RiskPolicy, n: nat,
                                       previews: seq<Candidate>)
    requires Ranked(cs, book, p, policy) && n <= |cs| && |previews| == |cs|
    requires forall k :: 0 <= k < |cs| ==> previews[k] == Allotted(cs, book, p, policy, k)
    ensures previews[..n] == Previews(cs, book, p, policy, n)
    decreases n
  {
    hide Ranked, Allotted;
    if n > 0 {
      PreviewsAre(cs, book, p, policy, n - 1, previews);
      assert previews[..n] == previews[..n - 1] + [previews[n - 1]];
    }
  }

  /** What a scan does to the portfolio it projects, whatever it lists in the end. */
  ghost predicate CapitalKept(cs: seq<Candidate>, book: Book, p: Portfolio, policy: RiskPolicy) {
    && Ranked(cs, book, p, policy)
    && var q, total := Projected(cs, book, p, policy, |cs|), Reserved(cs, book, p, policy, |cs|);
    && q.Valid() && total >= 0.0 && q.buyingPower == p.buyingPower - total
    && (p.currentExposure.Some? ==>
          && q.currentExposure.Some? && q.currentExposure.value == p.currentExposure.value + total
          && q.currentExposure.value <= Max(p.currentExposure.value, ExposureLimit(p, policy)))
    && (p.openSymbols.Some? ==>
          && q.openSymbols.Some? && Distinct(q.openSymbols.value)
          && (|q.openSymbols.value| <= |p.openSymbols.value| || |q.openSymbols.value| <= PositionLimit(p, policy)))
  }

  lemma ScanKeepsCapital(cs: seq<Candidate>, book: Book, p: Portfolio, policy: RiskPolicy)
    requires Ranked(cs, book, p, policy)
    ensures CapitalKept(cs, book, p, policy)
  {
    hide Ranked, Projected, Reserved, Later, ExposureLimit, PositionLimit, Distinct, Portfolio.Valid;
    AllocationConserves(cs, book, p, policy, |cs|);
    LaterKeepsLimits(p, Projected(cs, book, p, policy, |cs|), policy);
  }

  /** `scan`: it raises exactly when the first pass does. Otherwise it lists the best
    * of the allocated previews in rank order and accounts for every instrument, and
    * the capital it reserved on the way is conserved and bounded. */
  method ScanUniverse(instruments: seq<Instrument>, portfolio: Portfolio, policy: RiskPolicy, maxCandidates: nat)
    returns (r: Result<ScanResult, PriceError>)
    requires portfolio.Valid() && policy.Valid()
    ensures r.Ok? <==> Healthy(instruments)
    ensures r.Ok? ==>
              var n := |instruments|;
              var ranked, book := Ranking(instruments, portfolio, policy), BookOf(instruments, n);
              && CapitalKept(ranked, book, portfolio, policy)
              && r.value.candidates == First(ByRank(Previews(ranked, book, portfolio, policy, |ranked|)), maxCandidates)
              && BestOf(Previews(ranked, book, portfolio, policy, |ranked|), r.value.candidates, maxCandidates)
              && r.value.rejected == Rejections(instruments, n)
              && r.value.scanned == n == |ranked| + |r.value.rejected|
              && r.value.valid == ReadableIn(instruments, n)
  {
    hide *;
    var pass := FirstPass(instruments, portfolio, policy);
    if pass.Err? {
      return Err(pass.error);
    }
    ghost var n := |instruments|;
    var ranked := ByRank(pass.value.candidates);
    RankingIs(instruments, portfolio, policy);
    RankingIsRanked(instruments, portfolio, policy);
    EveryInstrumentCounts(instruments, portfolio, policy, n);
    var book := BookOf(instruments, |instruments|);
    var previews, projected := AllocateRankedPreviews(ranked, book, portfolio, policy);
    PreviewsAre(ranked, book, portfolio, policy, |ranked|, previews);
    assert previews[..|ranked|] == previews;
    ScanKeepsCapital(ranked, book, portfolio, policy);
    var final := ByRank(previews);
    FirstIsBest(previews, maxCandidates);
    r := Ok(ScanResult(First(final, maxCandidates), pass.value.rejected, |instruments|, pass.value.valid));
  }

  function First(cs: seq<Candidate>, limit: nat): seq<Candidate> {
    if |cs| <= limit then cs else cs[..limit]
  }

  lemma RankingIs(instruments: seq<Instrument>, p: Portfolio, policy: RiskPolicy)
    ensures Ranking(instruments, p, policy) == ByRank(Candidates(instruments, p, policy, |instruments|))
  {
  }
}
