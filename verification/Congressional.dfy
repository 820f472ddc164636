/** Scoring of disclosed congressional trades (global_rotation/congressional.py).
  * Dates are day numbers; ratios are exact where the source divides floats.
  */
module Congressional {
  import opened Wrappers

  datatype Side = Purchase | Sale | Other

  /** A disclosure without its side. The politician is the case-folded name. */
  datatype Filing = Filing(
    symbol: string,
    politician: string,
    tradedOn: int,
    publishedOn: int,
    amountLow: Option<real>,
    amountHigh: Option<real>)
  {
    function Lag(): int { publishedOn - tradedOn }

    /** A high amount of zero counts as missing. */
    function UpperAmount(): Option<real> {
      if amountHigh.Some? && amountHigh.value != 0.0 then amountHigh else amountLow
    }
  }

  datatype Trade = Trade(side: Side, filing: Filing)

  datatype Policy = Policy(
    lookbackDays: int,
    veryRecentDays: int,
    recentDays: int,
    moderateRecencyDays: int,
    lowLagDays: int,
    moderateLagDays: int,
    maximumPriorityAdjustment: int)
  {
    /** What the constructor accepts. */
    predicate Valid() {
      && lookbackDays >= 1 && 1 <= veryRecentDays <= recentDays <= moderateRecencyDays <= lookbackDays
      && 1 <= lowLagDays <= moderateLagDays && maximumPriorityAdjustment >= 1
    }
  }

  // ---- Selections ----------------------------------------------------------------

  predicate IsEligible(f: Filing, symbol: string, asOf: int, policy: Policy) {
    f.symbol == symbol && f.publishedOn <= asOf && asOf - f.publishedOn <= policy.lookbackDays
  }

  function Eligible(ts: seq<Trade>, symbol: string, asOf: int, policy: Policy): seq<Trade> {
    if ts == [] then []
    else (if IsEligible(ts[0].filing, symbol, asOf, policy) then [ts[0]] else [])
         + Eligible(ts[1..], symbol, asOf, policy)
  }

  function On(ts: seq<Trade>, side: Side): seq<Filing> {
    if ts == [] then [] else (if ts[0].side == side then [ts[0].filing] else []) + On(ts[1..], side)
  }

  function All(ts: seq<Trade>): seq<Filing> {
    if ts == [] then [] else [ts[0].filing] + All(ts[1..])
  }

  datatype Test = ByTrader(name: string) | WithLag(days: int)

  predicate Passes(f: Filing, test: Test) {
    match test
    case ByTrader(name) => f.politician == name
    case WithLag(days) => f.Lag() == days
  }

  function Those(fs: seq<Filing>, test: Test): seq<Filing> {
    if fs == [] then [] else (if Passes(fs[0], test) then [fs[0]] else []) + Those(fs[1..], test)
  }

  // ---- Statistics ----------------------------------------------------------------

  function FreshestAge(fs: seq<Filing>, asOf: int): (age: int)
    requires fs != []
    ensures exists f :: f in fs && age == asOf - f.publishedOn
    ensures forall f :: f in fs ==> age <= asOf - f.publishedOn
  {
    var age := asOf - fs[0].publishedOn;
    if |fs| == 1 then age
    else
      var rest := FreshestAge(fs[1..], asOf);
      assert forall f :: f in fs <==> f == fs[0] || f in fs[1..];
      if age <= rest then age else rest
  }

  function Traders(fs: seq<Filing>): set<string> {
    set f | f in fs :: f.politician
  }

  predicate Repeats(fs: seq<Filing>) {
    exists name :: name in Traders(fs) && |Those(fs, ByTrader(name))| >= 2
  }

  /** The largest reported upper amount; None when no filing reports any. */
  function Largest(fs: seq<Filing>): (amount: Option<real>)
    ensures amount.Some? <==> exists f :: f in fs && f.UpperAmount().Some?
    ensures amount.Some? ==> exists f :: f in fs && f.UpperAmount() == amount
    ensures amount.Some? ==> forall f :: f in fs && f.UpperAmount().Some? ==> f.UpperAmount().value <= amount.value
  {
    if fs == [] then None
    else
      assert forall f :: f in fs <==> f == fs[0] || f in fs[1..];
      var rest, upper := Largest(fs[1..]), fs[0].UpperAmount();
      if upper.None? then rest else if rest.None? || upper.value > rest.value then upper else rest
  }

  predicate Ascending(a: seq<int>) {
    forall i :: 0 < i < |a| ==> a[i - 1] <= a[i]
  }

  function Inserted(x: int, a: seq<int>): (r: seq<int>)
    requires Ascending(a)
    ensures Ascending(r) && |r| == |a| + 1
    ensures r[0] == x || (a != [] && r[0] == a[0])
  {
    if a == [] then [x] else if x <= a[0] then [x] + a else [a[0]] + Inserted(x, a[1..])
  }

  function SortedLags(fs: seq<Filing>): (lags: seq<int>)
    ensures Ascending(lags) && |lags| == |fs|
  {
    if fs == [] then [] else Inserted(fs[0].Lag(), SortedLags(fs[1..]))
  }

  function MedianLag(fs: seq<Filing>): real
    requires fs != []
  {
    var lags := SortedLags(fs);
    var middle := |lags| / 2;
    if |lags| % 2 == 1 then lags[middle] as real else (lags[middle - 1] + lags[middle]) as real / 2.0
  }

  // ---- Strength and signal ---------------------------------------------------------

  function FreshnessPoints(age: int, policy: Policy): nat {
    if age <= policy.veryRecentDays then 20
    else if age <= policy.recentDays then 12
    else if age <= policy.moderateRecencyDays then 5
    else 0
  }

  function LagPoints(lag: real, policy: Policy): nat {
    if lag <= policy.lowLagDays as real then 15
    else if lag <= policy.moderateLagDays as real then 8
    else if lag <= policy.lookbackDays as real then 3
    else 0
  }

  function AmountPoints(amount: Option<real>): nat {
    if amount.None? then 0
    else if amount.value >= 250000.0 then 15
    else if amount.value >= 100000.0 then 10
    else if amount.value >= 50000.0 then 5
    else 0
  }

  function Strength(fs: seq<Filing>, asOf: int, policy: Policy): (strength: nat)
    ensures strength <= 100
    ensures if fs == [] then strength == 0 else strength >= 20
  {
    if fs == [] then 0
    else
      var traders := |Traders(fs)|;
      var score := 20 + FreshnessPoints(FreshestAge(fs, asOf), policy)
                   + (if traders >= 2 then 15 else 0) + (if traders >= 3 then 10 else 0)
                   + (if Repeats(fs) then 10 else 0)
                   + AmountPoints(Largest(fs)) + LagPoints(MedianLag(fs), policy);
      if score < 100 then score else 100
  }

  /** Round half to even of n / 100. */
  function RoundedHundredth(n: int): (r: int)
    ensures -50 <= 100 * r - n <= 50
    ensures 100 * r - n == 50 || 100 * r - n == -50 ==> r % 2 == 0
  {
    var down, rest := n / 100, n % 100;
    if rest < 50 || (rest == 50 && down % 2 == 0) then down else down + 1
  }

  function Clamped(n: int, maximum: int): int {
    var low := if n < maximum then n else maximum;
    if low > -maximum then low else -maximum
  }

  function Adjustment(net: int, policy: Policy): int {
    Clamped(RoundedHundredth(net * policy.maximumPriorityAdjustment), policy.maximumPriorityAdjustment)
  }

  datatype Direction = Bullish | Bearish | Mixed | Neutral | Unavailable

  function DirectionOf(purchase: nat, sale: nat): Direction {
    var net := purchase - sale;
    if purchase != 0 && sale != 0 && -10 < net < 10 then Mixed
    else if net > 0 then Bullish
    else if net < 0 then Bearish
    else Neutral
  }

  datatype Signal = Signal(
    available: bool,
    score: nat,
    direction: Direction,
    priorityAdjustment: int,
    tradeCount: nat,
    purchaseCount: nat,
    saleCount: nat,
    purchaseTraders: nat,
    saleTraders: nat,
    freshestAge: Option<int>,
    medianLag: Option<real>,
    largest: Option<real>)

  datatype ScoreError = SymbolRequired | AdjustmentOutOfRange

  function Scored(eligible: seq<Trade>, asOf: int, policy: Policy): Signal {
    if eligible == [] then Signal(false, 0, Unavailable, 0, 0, 0, 0, 0, 0, None, None, None)
    else
      var purchase, sale := Strength(On(eligible, Purchase), asOf, policy), Strength(On(eligible, Sale), asOf, policy);
      Signal(true, if purchase >= sale then purchase else sale, DirectionOf(purchase, sale),
             Adjustment(purchase - sale, policy), |eligible|,
             |On(eligible, Purchase)|, |On(eligible, Sale)|,
             |Traders(On(eligible, Purchase))|, |Traders(On(eligible, Sale))|,
             Some(FreshestAge(All(eligible), asOf)), Some(MedianLag(All(eligible))), Largest(All(eligible)))
  }

  function Score(symbol: string, ts: seq<Trade>, asOf: int, policy: Policy): Result<Signal, ScoreError> {
    if symbol == "" then Err(SymbolRequired)
    else
      var signal := Scored(Eligible(ts, symbol, asOf, policy), asOf, policy);
      if -15 <= signal.priorityAdjustment <= 15 then Ok(signal) else Err(AdjustmentOutOfRange)
  }

  // ---- Only which trades matters, not their order ----------------------------------

  lemma {:induction false} EligibleCounts(ts: seq<Trade>, symbol: string, asOf: int, policy: Policy, t: Trade)
    ensures multiset(Eligible(ts, symbol, asOf, policy))[t]
            == if IsEligible(t.filing, symbol, asOf, policy) then multiset(ts)[t] else 0
  {
    hide IsEligible;
    if ts != [] {
      assert ts == [ts[0]] + ts[1..];
      EligibleCounts(ts[1..], symbol, asOf, policy, t);
    }
  }

  lemma {:induction false} OnCounts(ts: seq<Trade>, side: Side, f: Filing)
    ensures multiset(On(ts, side))[f] == multiset(ts)[Trade(side, f)]
  {
    if ts != [] {
      assert ts == [ts[0]] + ts[1..];
      OnCounts(ts[1..], side, f);
    }
  }

  lemma {:induction false} AllCounts(ts: seq<Trade>, f: Filing)
    ensures multiset(All(ts))[f]
            == multiset(ts)[Trade(Purchase, f)] + multiset(ts)[Trade(Sale, f)] + multiset(ts)[Trade(Other, f)]
  {
    if ts != [] {
      var t := ts[0];
      assert ts == [t] + ts[1..];
      assert t == Trade(t.side, t.filing);
      AllCounts(ts[1..], f);
      match t.side {
        case Purchase =>
        case Sale =>
        case Other =>
      }
    }
  }

  lemma {:induction false} ThoseCounts(fs: seq<Filing>, test: Test, f: Filing)
    ensures multiset(Those(fs, test))[f] == if Passes(f, test) then multiset(fs)[f] else 0
  {
    hide Passes;
    if fs != [] {
      assert fs == [fs[0]] + fs[1..];
      ThoseCounts(fs[1..], test, f);
    }
  }

  /** Selections of the same trades are the same filings. */
  lemma SelectionsPermute(ts: seq<Trade>, us: seq<Trade>)
    requires multiset(ts) == multiset(us)
    ensures multiset(On(ts, Purchase)) == multiset(On(us, Purchase))
    ensures multiset(On(ts, Sale)) == multiset(On(us, Sale))
    ensures multiset(All(ts)) == multiset(All(us))
  {
    forall f
      ensures multiset(On(ts, Purchase))[f] == multiset(On(us, Purchase))[f]
      ensures multiset(On(ts, Sale))[f] == multiset(On(us, Sale))[f]
      ensures multiset(All(ts))[f] == multiset(All(us))[f]
    {
      OnCounts(ts, Purchase, f);
      OnCounts(us, Purchase, f);
      OnCounts(ts, Sale, f);
      OnCounts(us, Sale, f);
      AllCounts(ts, f);
      AllCounts(us, f);
    }
  }

  lemma ThosePermute(fs: seq<Filing>, gs: seq<Filing>, test: Test)
    requires multiset(fs) == multiset(gs)
    ensures |Those(fs, test)| == |Those(gs, test)|
  {
    forall f ensures multiset(Those(fs, test))[f] == multiset(Those(gs, test))[f] {
      ThoseCounts(fs, test, f);
      ThoseCounts(gs, test, f);
    }
    assert multiset(Those(fs, test)) == multiset(Those(gs, test));
    assert |multiset(Those(fs, test))| == |multiset(Those(gs, test))|;
  }

  lemma SameMembers(fs: seq<Filing>, gs: seq<Filing>)
    requires multiset(fs) == multiset(gs)
    ensures forall f :: f in fs <==> f in gs
    ensures |fs| == |gs|
    ensures Traders(fs) == Traders(gs)
  {
    forall f ensures f in fs <==> f in gs {
      assert f in fs <==> f in multiset(fs);
      assert f in gs <==> f in multiset(gs);
    }
    assert |multiset(fs)| == |multiset(gs)|;
  }

  // ---- The median ------------------------------------------------------------------

  lemma {:induction false} InsertedCounts(x: int, a: seq<int>, y: int)
    requires Ascending(a)
    ensures multiset(Inserted(x, a))[y] == multiset(a)[y] + if x == y then 1 else 0
  {
    if a != [] && x > a[0] {
      assert a == [a[0]] + a[1..];
      InsertedCounts(x, a[1..], y);
    }
  }

  lemma {:induction false} LagCounts(fs: seq<Filing>, days: int)
    ensures multiset(SortedLags(fs))[days] == |Those(fs, WithLag(days))|
  {
    if fs != [] {
      InsertedCounts(fs[0].Lag(), SortedLags(fs[1..]), days);
      LagCounts(fs[1..], days);
    }
  }

  lemma {:induction false} HeadLeast(a: seq<int>, k: nat)
    requires Ascending(a) && k < |a|
    ensures a[0] <= a[k]
  {
    if k > 0 {
      HeadLeast(a, k - 1);
    }
  }

  lemma SameHead(a: seq<int>, b: seq<int>)
    requires Ascending(a) && Ascending(b) && multiset(a) == multiset(b) && a != [] && b != []
    ensures a[0] == b[0]
  {
    hide Ascending;
    assert a[0] in multiset(b) && b[0] in multiset(a);
    var i :| 0 <= i < |b| && b[i] == a[0];
    var j :| 0 <= j < |a| && a[j] == b[0];
    HeadLeast(b, i);
    HeadLeast(a, j);
  }

  lemma TailMultiset(a: seq<int>)
    requires a != []
    ensures multiset(a[1..]) == multiset(a) - multiset{a[0]}
  {
    assert a == [a[0]] + a[1..];
  }

  lemma {:induction false} AscendingUnique(a: seq<int>, b: seq<int>)
    requires Ascending(a) && Ascending(b) && multiset(a) == multiset(b)
    ensures a == b
  {
    assert |multiset(a)| == |multiset(b)|;
    if a != [] {
      SameHead(a, b);
      TailMultiset(a);
      TailMultiset(b);
      AscendingUnique(a[1..], b[1..]);
    }
  }

  lemma MedianPermutes(fs: seq<Filing>, gs: seq<Filing>)
    requires multiset(fs) == multiset(gs) && fs != [] && gs != []
    ensures MedianLag(fs) == MedianLag(gs)
  {
    hide Ascending;
    forall days ensures multiset(SortedLags(fs))[days] == multiset(SortedLags(gs))[days] {
      LagCounts(fs, days);
      LagCounts(gs, days);
      ThosePermute(fs, gs, WithLag(days));
    }
    AscendingUnique(SortedLags(fs), SortedLags(gs));
  }

  /** Ages, amounts and repetition depend only on which filings there are. */
  lemma StatisticsPermute(fs: seq<Filing>, gs: seq<Filing>, asOf: int)
    requires multiset(fs) == multiset(gs) && fs != [] && gs != []
    ensures FreshestAge(fs, asOf) == FreshestAge(gs, asOf)
    ensures Largest(fs) == Largest(gs)
    ensures Repeats(fs) == Repeats(gs)
  {
    hide Traders, Those, FreshestAge, Largest;
    SameMembers(fs, gs);
    forall name ensures |Those(fs, ByTrader(name))| == |Those(gs, ByTrader(name))| {
      ThosePermute(fs, gs, ByTrader(name));
    }
  }

  lemma StrengthPermutes(fs: seq<Filing>, gs: seq<Filing>, asOf: int, policy: Policy)
    requires multiset(fs) == multiset(gs)
    ensures Strength(fs, asOf, policy) == Strength(gs, asOf, policy)
  {
    hide Traders, FreshestAge, Largest, Repeats, MedianLag, FreshnessPoints, LagPoints, AmountPoints;
    SameMembers(fs, gs);
    if fs != [] {
      StatisticsPermute(fs, gs, asOf);
      MedianPermutes(fs, gs);
    }
  }

  lemma ScoredPermutes(es: seq<Trade>, us: seq<Trade>, asOf: int, policy: Policy)
    requires multiset(es) == multiset(us)
    ensures Scored(es, asOf, policy) == Scored(us, asOf, policy)
  {
    hide Strength, Traders, FreshestAge, Largest, MedianLag, DirectionOf, Adjustment;
    assert |multiset(es)| == |multiset(us)|;
    SelectionsPermute(es, us);
    StrengthPermutes(On(es, Purchase), On(us, Purchase), asOf, policy);
    StrengthPermutes(On(es, Sale), On(us, Sale), asOf, policy);
    SameMembers(On(es, Purchase), On(us, Purchase));
    SameMembers(On(es, Sale), On(us, Sale));
    if es != [] {
      AllKeepsLength(es);
      AllKeepsLength(us);
      StatisticsPermute(All(es), All(us), asOf);
      MedianPermutes(All(es), All(us));
    }
  }

  lemma {:induction false} AllKeepsLength(ts: seq<Trade>)
    ensures |All(ts)| == |ts|
  {
    if ts != [] {
      AllKeepsLength(ts[1..]);
    }
  }

  /** The signal depends only on which disclosures are public by the date: listing
    * them in another order, or adding any that are published later, anywhere in
    * the list, changes nothing. */
  lemma ScoreIgnoresOrderAndFuture(symbol: string, ts: seq<Trade>, us: seq<Trade>, later: multiset<Trade>, asOf: int,
                                   policy: Policy)
    requires multiset(us) == multiset(ts) + later
    requires forall t :: t in later ==> t.filing.publishedOn > asOf
    ensures Score(symbol, us, asOf, policy) == Score(symbol, ts, asOf, policy)
  {
    hide Score;
    ScoreReadsOnlyTheWindow(symbol, ts, us, later, asOf, policy);
  }

  /** The disclosures a signal may read: of its symbol, public by the date, and
    * published no longer ago than the lookback. */
  predicate InWindow(f: Filing, symbol: string, asOf: int, policy: Policy) {
    f.symbol == symbol && 0 <= asOf - f.publishedOn <= policy.lookbackDays
  }

  /** Disclosures outside the window change nothing, wherever they stand in the list. */
  lemma ScoreReadsOnlyTheWindow(symbol: string, ts: seq<Trade>, us: seq<Trade>, others: multiset<Trade>, asOf: int,
                                policy: Policy)
    requires multiset(us) == multiset(ts) + others
    requires forall t :: t in others ==> !InWindow(t.filing, symbol, asOf, policy)
    ensures Score(symbol, us, asOf, policy) == Score(symbol, ts, asOf, policy)
  {
    hide Scored, Eligible;
    var es, gs := Eligible(ts, symbol, asOf, policy), Eligible(us, symbol, asOf, policy);
    forall t ensures multiset(es)[t] == multiset(gs)[t] {
      EligibleCounts(ts, symbol, asOf, policy, t);
      EligibleCounts(us, symbol, asOf, policy, t);
      assert t in others || others[t] == 0;
    }
    assert multiset(es) == multiset(gs);
    ScoredPermutes(es, gs, asOf, policy);
  }

  /** Every disclosure in the window is counted, on its side; with the two lemmas
    * above, wherever it stands in the list. */
  lemma WindowIsCounted(symbol: string, t: Trade, ts: seq<Trade>, asOf: int, policy: Policy)
    requires InWindow(t.filing, symbol, asOf, policy)
    requires Score(symbol, ts, asOf, policy).Ok? && Score(symbol, [t] + ts, asOf, policy).Ok?
    ensures var before, after := Score(symbol, ts, asOf, policy).value, Score(symbol, [t] + ts, asOf, policy).value;
            && after.available && after.tradeCount == before.tradeCount + 1
            && after.purchaseCount == before.purchaseCount + (if t.side == Purchase then 1 else 0)
            && after.saleCount == before.saleCount + (if t.side == Sale then 1 else 0)
            && after.freshestAge.Some? && after.freshestAge.value <= asOf - t.filing.publishedOn
            && (t.filing.UpperAmount().Some? ==>
                  after.largest.Some? && after.largest.value >= t.filing.UpperAmount().value)
  {
    hide Strength, Traders, MedianLag, DirectionOf, Adjustment, FreshestAge, Largest, Filing.UpperAmount;
    var es := Eligible(ts, symbol, asOf, policy);
    assert ([t] + ts)[1..] == ts && ([t] + es)[1..] == es;
    assert Eligible([t] + ts, symbol, asOf, policy) == [t] + es;
    OnCons(t, es, Purchase);
    OnCons(t, es, Sale);
    AllCons(t, es);
    assert t.filing in All([t] + es);
    NothingOn(Purchase);
    NothingOn(Sale);
  }

  lemma OnCons(t: Trade, rest: seq<Trade>, side: Side)
    ensures |On([t] + rest, side)| == |On(rest, side)| + if t.side == side then 1 else 0
  {
    assert ([t] + rest)[1..] == rest;
  }

  // ---- Strength, told by the disclosures themselves ----------------------------------

  function Bonus(condition: bool, points: nat): nat { if condition then points else 0 }

  ghost predicate PublishedWithin(fs: seq<Filing>, asOf: int, days: int) {
    exists f :: f in fs && asOf - f.publishedOn <= days
  }

  ghost predicate ReportsAtLeast(fs: seq<Filing>, amount: real) {
    exists f :: f in fs && f.UpperAmount().Some? && f.UpperAmount().value >= amount
  }

  ghost predicate TwoTraders(fs: seq<Filing>) {
    exists f, g :: f in fs && g in fs && f.politician != g.politician
  }

  ghost predicate ThreeTraders(fs: seq<Filing>) {
    exists f, g, h :: f in fs && g in fs && h in fs
                   && f.politician != g.politician && g.politician != h.politician && f.politician != h.politician
  }

  ghost predicate SomeoneTwice(fs: seq<Filing>) {
    exists i, j :: 0 <= i < j < |fs| && fs[i].politician == fs[j].politician
  }

  /** The points of one side: a base, and a bonus for each thing the disclosures show,
    * every harder one on top of the easier. */
  ghost function FactPoints(fs: seq<Filing>, asOf: int, policy: Policy): nat
    requires fs != []
  {
    var lag := MedianLag(fs);
    20
    + Bonus(PublishedWithin(fs, asOf, policy.moderateRecencyDays), 5)
    + Bonus(PublishedWithin(fs, asOf, policy.recentDays), 7)
    + Bonus(PublishedWithin(fs, asOf, policy.veryRecentDays), 8)
    + Bonus(TwoTraders(fs), 15) + Bonus(ThreeTraders(fs), 10) + Bonus(SomeoneTwice(fs), 10)
    + Bonus(ReportsAtLeast(fs, 50000.0), 5) + Bonus(ReportsAtLeast(fs, 100000.0), 5)
    + Bonus(ReportsAtLeast(fs, 250000.0), 5)
    + Bonus(lag <= policy.lookbackDays as real || lag <= policy.moderateLagDays as real, 3)
    + Bonus(lag <= policy.moderateLagDays as real, 5) + Bonus(lag <= policy.lowLagDays as real, 7)
  }

  /** The strength of a side is its points, up to a hundred. */
  lemma StrengthByFacts(fs: seq<Filing>, asOf: int, policy: Policy)
    requires policy.Valid() && fs != []
    ensures Strength(fs, asOf, policy)
            == if FactPoints(fs, asOf, policy) < 100 then FactPoints(fs, asOf, policy) else 100
  {
    hide FreshestAge, Largest, MedianLag, Traders, Repeats, FreshnessPoints, AmountPoints, LagPoints, PublishedWithin,
         ReportsAtLeast, TwoTraders, ThreeTraders, SomeoneTwice, Bonus;
    FreshnessByFacts(fs, asOf, policy);
    AmountByFacts(fs);
    LagByFacts(MedianLag(fs), policy);
    TradersByFacts(fs);
    RepeatsByFacts(fs);
    BonusIs(TwoTraders(fs), 15);
    BonusIs(ThreeTraders(fs), 10);
    BonusIs(SomeoneTwice(fs), 10);
  }

  lemma BonusIs(condition: bool, points: nat)
    ensures Bonus(condition, points) == if condition then points else 0
  {
  }

  lemma FreshnessByFacts(fs: seq<Filing>, asOf: int, policy: Policy)
    requires policy.Valid() && fs != []
    ensures FreshnessPoints(FreshestAge(fs, asOf), policy)
            == Bonus(PublishedWithin(fs, asOf, policy.moderateRecencyDays), 5)
               + Bonus(PublishedWithin(fs, asOf, policy.recentDays), 7)
               + Bonus(PublishedWithin(fs, asOf, policy.veryRecentDays), 8)
  {
    hide PublishedWithin, FreshestAge;
    FreshestWithin(fs, asOf, policy.moderateRecencyDays);
    FreshestWithin(fs, asOf, policy.recentDays);
    FreshestWithin(fs, asOf, policy.veryRecentDays);
  }

  lemma FreshestWithin(fs: seq<Filing>, asOf: int, days: int)
    requires fs != []
    ensures FreshestAge(fs, asOf) <= days <==> PublishedWithin(fs, asOf, days)
  {
    hide FreshestAge;
  }

  lemma AmountByFacts(fs: seq<Filing>)
    ensures AmountPoints(Largest(fs))
            == Bonus(ReportsAtLeast(fs, 50000.0), 5) + Bonus(ReportsAtLeast(fs, 100000.0), 5)
               + Bonus(ReportsAtLeast(fs, 250000.0), 5)
  {
    hide ReportsAtLeast, Largest;
    LargestReports(fs, 50000.0);
    LargestReports(fs, 100000.0);
    LargestReports(fs, 250000.0);
  }

  lemma LargestReports(fs: seq<Filing>, amount: real)
    ensures Largest(fs).Some? && Largest(fs).value >= amount <==> ReportsAtLeast(fs, amount)
  {
    hide Largest, Filing.UpperAmount;
  }

  lemma LagByFacts(lag: real, policy: Policy)
    requires policy.Valid()
    ensures LagPoints(lag, policy)
            == Bonus(lag <= policy.lookbackDays as real || lag <= policy.moderateLagDays as real, 3)
               + Bonus(lag <= policy.moderateLagDays as real, 5) + Bonus(lag <= policy.lowLagDays as real, 7)
  {
  }

  lemma TradersByFacts(fs: seq<Filing>)
    ensures |Traders(fs)| >= 2 <==> TwoTraders(fs)
    ensures |Traders(fs)| >= 3 <==> ThreeTraders(fs)
  {
    hide Traders, TwoTraders, ThreeTraders;
    TwoByFacts(fs);
    ThreeByFacts(fs);
  }

  lemma TwoByFacts(fs: seq<Filing>)
    ensures |Traders(fs)| >= 2 <==> TwoTraders(fs)
  {
    hide Traders;
    NamesAre(fs);
    TwoIn(Traders(fs));
    if |Traders(fs)| >= 2 {
      var a, b :| a in Traders(fs) && b in Traders(fs) && a != b;
      var f :| f in fs && f.politician == a;
      var g :| g in fs && g.politician == b;
    } else if TwoTraders(fs) {
      TwoNames(fs);
    }
  }

  lemma TwoNames(fs: seq<Filing>)
    requires TwoTraders(fs)
    ensures exists a, b :: a in Traders(fs) && b in Traders(fs) && a != b
  {
    var f, g :| f in fs && g in fs && f.politician != g.politician;
    assert f.politician in Traders(fs) && g.politician in Traders(fs);
  }

  lemma ThreeByFacts(fs: seq<Filing>)
    ensures |Traders(fs)| >= 3 <==> ThreeTraders(fs)
  {
    hide Traders;
    NamesAre(fs);
    ThreeIn(Traders(fs));
    if |Traders(fs)| >= 3 {
      var a, b, c :| a in Traders(fs) && b in Traders(fs) && c in Traders(fs) && a != b && b != c && a != c;
      var f :| f in fs && f.politician == a;
      var g :| g in fs && g.politician == b;
      var h :| h in fs && h.politician == c;
    } else if ThreeTraders(fs) {
      ThreeNames(fs);
    }
  }

  lemma ThreeNames(fs: seq<Filing>)
    requires ThreeTraders(fs)
    ensures exists a, b, c :: a in Traders(fs) && b in Traders(fs) && c in Traders(fs) && a != b && b != c && a != c
  {
    var f, g, h :| f in fs && g in fs && h in fs && f.politician != g.politician && g.politician != h.politician
                   && f.politician != h.politician;
    assert f.politician in Traders(fs) && g.politician in Traders(fs) && h.politician in Traders(fs);
  }

  lemma NamesAre(fs: seq<Filing>)
    ensures forall name :: name in Traders(fs) <==> exists f :: f in fs && f.politician == name
  {
  }

  lemma Without(s: set<string>, a: string)
    requires a in s
    ensures |s - {a}| == |s| - 1
    ensures |s| >= 2 ==> s - {a} != {}
  {
  }

  lemma TwoIn(s: set<string>)
    ensures |s| >= 2 <==> exists a, b :: a in s && b in s && a != b
  {
    if |s| >= 2 {
      var a :| a in s;
      Without(s, a);
      var b :| b in s - {a};
    }
    if a, b :| a in s && b in s && a != b {
      assert {a, b} <= s;
      FewerInSubset({a, b}, s);
    }
  }

  lemma ThreeIn(s: set<string>)
    ensures |s| >= 3 <==> exists a, b, c :: a in s && b in s && c in s && a != b && b != c && a != c
  {
    if |s| >= 3 {
      var a :| a in s;
      Without(s, a);
      TwoIn(s - {a});
      var b, c :| b in s - {a} && c in s - {a} && b != c;
    }
    if a, b, c :| a in s && b in s && c in s && a != b && b != c && a != c {
      assert {a, b, c} <= s;
      FewerInSubset({a, b, c}, s);
    }
  }

  lemma FewerInSubset(a: set<string>, b: set<string>)
    requires a <= b
    ensures |a| <= |b|
  {
    assert b == a + (b - a);
  }

  lemma RepeatsByFacts(fs: seq<Filing>)
    ensures Repeats(fs) <==> SomeoneTwice(fs)
  {
    hide Those, Traders, Passes;
    NamesAre(fs);
    forall name ensures |Those(fs, ByTrader(name))| >= 2 <==>
                          exists i, j :: 0 <= i < j < |fs| && fs[i].politician == fs[j].politician == name
    {
      TwiceByName(fs, name);
    }
    if i, j :| 0 <= i < j < |fs| && fs[i].politician == fs[j].politician {
      assert fs[i] in fs;
      assert fs[i].politician in Traders(fs);
    }
  }

  lemma {:induction false} SomeByName(fs: seq<Filing>, name: string)
    ensures |Those(fs, ByTrader(name))| >= 1 <==> exists i :: 0 <= i < |fs| && fs[i].politician == name
  {
    if fs != [] {
      SomeByName(fs[1..], name);
      if i :| 0 <= i < |fs[1..]| && fs[1..][i].politician == name {
        assert fs[i + 1].politician == name;
      }
      if i :| 0 < i < |fs| && fs[i].politician == name {
        assert fs[1..][i - 1].politician == name;
      }
    }
  }

  lemma {:induction false} TwiceByName(fs: seq<Filing>, name: string)
    ensures |Those(fs, ByTrader(name))| >= 2 <==>
              exists i, j :: 0 <= i < j < |fs| && fs[i].politician == fs[j].politician == name
  {
    if fs != [] {
      var rest := fs[1..];
      TwiceByName(rest, name);
      SomeByName(rest, name);
      if i, j :| 0 <= i < j < |rest| && rest[i].politician == rest[j].politician == name {
        assert fs[i + 1].politician == fs[j + 1].politician == name;
      }
      if i :| 0 <= i < |rest| && rest[i].politician == name {
        assert fs[i + 1].politician == name;
      }
      if i, j :| 0 <= i < j < |fs| && fs[i].politician == fs[j].politician == name {
        assert rest[j - 1].politician == name;
        if i > 0 {
          assert rest[i - 1].politician == name;
        }
      }
    }
  }

  /** Direction and score, by the strength of the two sides: neutral only without
    * purchases and sales, mixed when both sides trade and differ by less than ten. */
  lemma DirectionByLaw(symbol: string, ts: seq<Trade>, asOf: int, policy: Policy)
    requires Score(symbol, ts, asOf, policy).Ok?
    ensures var signal := Score(symbol, ts, asOf, policy).value;
            var es := Eligible(ts, symbol, asOf, policy);
            var bought, sold := Strength(On(es, Purchase), asOf, policy), Strength(On(es, Sale), asOf, policy);
            && (signal.available <==> exists t :: t in ts && InWindow(t.filing, symbol, asOf, policy))
            && (signal.direction == Unavailable <==> !signal.available)
            && (signal.direction == Neutral <==>
                  signal.available && signal.purchaseCount == 0 && signal.saleCount == 0)
            && (signal.direction == Mixed <==>
                  signal.purchaseCount > 0 && signal.saleCount > 0 && -10 < bought - sold < 10)
            && (signal.direction == Bullish <==>
                  signal.purchaseCount > 0 && (if signal.saleCount > 0 then bought >= sold + 10 else true))
            && (signal.direction == Bearish <==>
                  signal.saleCount > 0 && (if signal.purchaseCount > 0 then sold >= bought + 10 else true))
            && signal.score >= bought && signal.score >= sold && (signal.score == bought || signal.score == sold)
  {
    hide Strength, Traders, MedianLag, Adjustment, FreshestAge, Largest, Eligible;
    WindowIsEligible(ts, symbol, asOf, policy);
    NothingOn(Purchase);
    NothingOn(Sale);
  }

  /** The adjustment is the maximum scaled by the difference of the two strengths,
    * which are out of a hundred, to the nearest whole point. */
  lemma AdjustmentByLaw(symbol: string, ts: seq<Trade>, asOf: int, policy: Policy)
    requires policy.Valid() && Score(symbol, ts, asOf, policy).Ok?
    ensures var signal := Score(symbol, ts, asOf, policy).value;
            var es := Eligible(ts, symbol, asOf, policy);
            var bought, sold := Strength(On(es, Purchase), asOf, policy), Strength(On(es, Sale), asOf, policy);
            -50 <= 100 * signal.priorityAdjustment - (bought - sold) * policy.maximumPriorityAdjustment <= 50
  {
    hide Strength, Traders, MedianLag, Adjustment, FreshestAge, Largest, Eligible, RoundedHundredth, DirectionOf;
    var es := Eligible(ts, symbol, asOf, policy);
    NothingOn(Purchase);
    NothingOn(Sale);
    ClampIsIdle(Strength(On(es, Purchase), asOf, policy) - Strength(On(es, Sale), asOf, policy), policy);
  }

  /** The politicians counted on a side are those with a disclosure of that side in
    * the window. */
  lemma TradersInWindow(symbol: string, ts: seq<Trade>, asOf: int, policy: Policy)
    requires Score(symbol, ts, asOf, policy).Ok?
    ensures var signal := Score(symbol, ts, asOf, policy).value;
            && signal.purchaseTraders == |PoliticiansOn(ts, Purchase, symbol, asOf, policy)|
            && signal.saleTraders == |PoliticiansOn(ts, Sale, symbol, asOf, policy)|
  {
    hide Strength, MedianLag, Adjustment, FreshestAge, Largest, Eligible, PoliticiansOn, DirectionOf;
    TradersAre(symbol, ts, Purchase, asOf, policy);
    TradersAre(symbol, ts, Sale, asOf, policy);
    NothingOn(Purchase);
    NothingOn(Sale);
  }

  function PoliticiansOn(ts: seq<Trade>, side: Side, symbol: string, asOf: int, policy: Policy): set<string> {
    set t | t in ts && t.side == side && InWindow(t.filing, symbol, asOf, policy) :: t.filing.politician
  }

  lemma {:induction false} TradersAre(symbol: string, ts: seq<Trade>, side: Side, asOf: int, policy: Policy)
    ensures Traders(On(Eligible(ts, symbol, asOf, policy), side)) == PoliticiansOn(ts, side, symbol, asOf, policy)
  {
    forall name ensures name in Traders(On(Eligible(ts, symbol, asOf, policy), side))
                        <==> name in PoliticiansOn(ts, side, symbol, asOf, policy)
    {
      TraderIs(symbol, ts, side, asOf, policy, name);
    }
  }

  lemma {:induction false} TraderIs(symbol: string, ts: seq<Trade>, side: Side, asOf: int, policy: Policy, name: string)
    ensures (exists f :: f in On(Eligible(ts, symbol, asOf, policy), side) && f.politician == name)
            <==> exists t :: t in ts && t.side == side && InWindow(t.filing, symbol, asOf, policy)
                             && t.filing.politician == name
  {
    var fs := On(Eligible(ts, symbol, asOf, policy), side);
    if f :| f in fs && f.politician == name {
      FilingOrigin(symbol, ts, side, asOf, policy, f);
    }
    if t :| t in ts && t.side == side && InWindow(t.filing, symbol, asOf, policy) && t.filing.politician == name {
      FilingOrigin(symbol, ts, side, asOf, policy, t.filing);
      assert t == Trade(side, t.filing);
    }
  }

  lemma FilingOrigin(symbol: string, ts: seq<Trade>, side: Side, asOf: int, policy: Policy, f: Filing)
    ensures f in On(Eligible(ts, symbol, asOf, policy), side)
            <==> Trade(side, f) in ts && InWindow(f, symbol, asOf, policy)
  {
    hide On, Eligible;
    OnCounts(Eligible(ts, symbol, asOf, policy), side, f);
    EligibleCounts(ts, symbol, asOf, policy, Trade(side, f));
    assert f in On(Eligible(ts, symbol, asOf, policy), side)
           <==> multiset(On(Eligible(ts, symbol, asOf, policy), side))[f] > 0;
    assert Trade(side, f) in ts <==> multiset(ts)[Trade(side, f)] > 0;
  }

  lemma {:induction false} WindowIsEligible(ts: seq<Trade>, symbol: string, asOf: int, policy: Policy)
    ensures Eligible(ts, symbol, asOf, policy) != []
            <==> exists t :: t in ts && InWindow(t.filing, symbol, asOf, policy)
  {
    if ts != [] {
      WindowIsEligible(ts[1..], symbol, asOf, policy);
      assert ts == [ts[0]] + ts[1..];
    }
  }

  // ---- Purchases and sales mirrored ------------------------------------------------

  function Opposite(side: Side): Side {
    match side
    case Purchase => Sale
    case Sale => Purchase
    case Other => Other
  }

  function Swapped(ts: seq<Trade>): seq<Trade> {
    if ts == [] then [] else [Trade(Opposite(ts[0].side), ts[0].filing)] + Swapped(ts[1..])
  }

  lemma {:induction false} EligibleSwaps(ts: seq<Trade>, symbol: string, asOf: int, policy: Policy)
    ensures Eligible(Swapped(ts), symbol, asOf, policy) == Swapped(Eligible(ts, symbol, asOf, policy))
  {
    hide IsEligible;
    if ts != [] {
      var head := Trade(Opposite(ts[0].side), ts[0].filing);
      assert Swapped(ts)[0] == head && Swapped(ts)[1..] == Swapped(ts[1..]);
      EligibleSwaps(ts[1..], symbol, asOf, policy);
      var rest := Eligible(ts[1..], symbol, asOf, policy);
      if IsEligible(ts[0].filing, symbol, asOf, policy) {
        assert ([ts[0]] + rest)[1..] == rest;
      } else {
        assert Eligible(ts, symbol, asOf, policy) == rest;
      }
    }
  }

  lemma {:induction false} SelectionsSwap(ts: seq<Trade>, side: Side)
    ensures On(Swapped(ts), side) == On(ts, Opposite(side)) && All(Swapped(ts)) == All(ts)
    ensures |Swapped(ts)| == |ts|
  {
    if ts != [] {
      assert Swapped(ts)[1..] == Swapped(ts[1..]);
      SelectionsSwap(ts[1..], side);
    }
  }

  lemma RoundingIsSymmetric(n: int)
    ensures RoundedHundredth(-n) == -RoundedHundredth(n)
  {
    var down, rest := n / 100, n % 100;
    assert n == 100 * down + rest;
    if rest == 0 {
      assert -n == 100 * -down;
    } else {
      assert -n == 100 * (-down - 1) + (100 - rest);
    }
  }

  /** Rounding never takes the adjustment past the maximum, so the clamp is idle. */
  lemma ClampIsIdle(net: int, policy: Policy)
    requires policy.Valid() && -100 <= net <= 100
    ensures Adjustment(net, policy) == RoundedHundredth(net * policy.maximumPriorityAdjustment)
    ensures -policy.maximumPriorityAdjustment <= Adjustment(net, policy) <= policy.maximumPriorityAdjustment
  {
    var maximum := policy.maximumPriorityAdjustment;
    assert -100 * maximum <= net * maximum <= 100 * maximum;
  }

  lemma ClampIsOdd(n: int, maximum: int)
    requires maximum >= 0
    ensures Clamped(-n, maximum) == -Clamped(n, maximum)
  {
  }

  lemma ProductIsOdd(a: int, b: int)
    ensures -a * b == -(a * b)
  {
  }

  lemma AdjustmentIsOdd(net: int, policy: Policy)
    requires policy.maximumPriorityAdjustment >= 0
    ensures Adjustment(-net, policy) == -Adjustment(net, policy)
  {
    hide RoundedHundredth, Clamped;
    ProductIsOdd(net, policy.maximumPriorityAdjustment);
    RoundingIsSymmetric(net * policy.maximumPriorityAdjustment);
    ClampIsOdd(RoundedHundredth(net * policy.maximumPriorityAdjustment), policy.maximumPriorityAdjustment);
  }

  function Mirrored(d: Direction): Direction {
    if d == Bullish then Bearish else if d == Bearish then Bullish else d
  }

  /** Exchanging purchases and sales keeps the score, negates the adjustment, mirrors
    * the direction and exchanges the counts of the two sides. */
  lemma SwapMirrors(symbol: string, ts: seq<Trade>, asOf: int, policy: Policy)
    requires policy.Valid()
    ensures var before, after := Score(symbol, ts, asOf, policy), Score(symbol, Swapped(ts), asOf, policy);
            && (before.Err? ==> after == before)
            && (before.Ok? ==>
                  && after.Ok?
                  && var (b, a) := (before.value, after.value);
                     && a.score == b.score
                     && a.priorityAdjustment == -b.priorityAdjustment
                     && a.direction == Mirrored(b.direction)
                     && a.purchaseCount == b.saleCount && a.saleCount == b.purchaseCount
                     && a.purchaseTraders == b.saleTraders && a.saleTraders == b.purchaseTraders
                     && a.tradeCount == b.tradeCount && a.freshestAge == b.freshestAge
                     && a.medianLag == b.medianLag && a.largest == b.largest)
  {
    hide Strength, Traders, FreshestAge, Largest, MedianLag, Adjustment, Swapped, Eligible;
    var es := Eligible(ts, symbol, asOf, policy);
    EligibleSwaps(ts, symbol, asOf, policy);
    SelectionsSwap(es, Purchase);
    SelectionsSwap(es, Sale);
    AdjustmentIsOdd(Strength(On(es, Purchase), asOf, policy) - Strength(On(es, Sale), asOf, policy), policy);
  }

  /** With a maximum adjustment of at most 15 every score is accepted. */
  lemma SmallMaximumNeverRaises(symbol: string, ts: seq<Trade>, asOf: int, policy: Policy)
    requires policy.Valid() && policy.maximumPriorityAdjustment <= 15 && symbol != ""
    ensures Score(symbol, ts, asOf, policy).Ok?
  {
    hide Strength, Traders, FreshestAge, Largest, MedianLag, Adjustment, Eligible, DirectionOf;
    var es := Eligible(ts, symbol, asOf, policy);
    ClampIsIdle(Strength(On(es, Purchase), asOf, policy) - Strength(On(es, Sale), asOf, policy), policy);
  }

  function Loud(symbol: string, name: string): Trade {
    Trade(Purchase, Filing(symbol, name, 0, 0, None, Some(250000.0)))
  }

  /** Four large purchases by three politicians, traded and published on one day. */
  function LoudTrades(symbol: string): seq<Trade> {
    [Loud(symbol, "a"), Loud(symbol, "b"), Loud(symbol, "c"), Loud(symbol, "a")]
  }

  function LoudFilings(symbol: string): seq<Filing> {
    [Loud(symbol, "a").filing, Loud(symbol, "b").filing, Loud(symbol, "c").filing, Loud(symbol, "a").filing]
  }

  lemma {:induction false} EveryEligible(ts: seq<Trade>, symbol: string, asOf: int, policy: Policy)
    requires forall t :: t in ts ==> IsEligible(t.filing, symbol, asOf, policy)
    ensures Eligible(ts, symbol, asOf, policy) == ts
  {
    hide IsEligible;
    if ts != [] {
      assert ts == [ts[0]] + ts[1..];
      EveryEligible(ts[1..], symbol, asOf, policy);
    }
  }

  lemma {:induction false} EveryPurchase(ts: seq<Trade>)
    requires forall t :: t in ts ==> t.side == Purchase
    ensures On(ts, Purchase) == All(ts) && On(ts, Sale) == []
  {
    if ts != [] {
      assert ts == [ts[0]] + ts[1..];
      EveryPurchase(ts[1..]);
    }
  }

  lemma AllCons(t: Trade, rest: seq<Trade>)
    ensures All([t] + rest) == [t.filing] + All(rest)
  {
    assert ([t] + rest)[1..] == rest;
  }

  lemma LoudSelected(symbol: string)
    ensures All(LoudTrades(symbol)) == LoudFilings(symbol)
  {
    hide All;
    var a, b, c := Loud(symbol, "a"), Loud(symbol, "b"), Loud(symbol, "c");
    AllCons(a, [b, c, a]);
    AllCons(b, [c, a]);
    AllCons(c, [a]);
    AllCons(a, []);
    AllNone();
    assert [a, b, c, a] == [a] + [b, c, a] && [b, c, a] == [b] + [c, a] && [c, a] == [c] + [a] && [a] == [a] + [];
  }

  lemma AllNone()
    ensures All([]) == []
  {
  }

  lemma {:induction false} InsertedMembers(x: int, a: seq<int>)
    requires Ascending(a)
    ensures forall y :: y in Inserted(x, a) ==> y == x || y in a
  {
    if a != [] && x > a[0] {
      InsertedMembers(x, a[1..]);
    }
  }

  lemma {:induction false} SameLagMedian(fs: seq<Filing>)
    requires forall f :: f in fs ==> f.Lag() == 0
    ensures forall y :: y in SortedLags(fs) ==> y == 0
  {
    if fs != [] {
      SameLagMedian(fs[1..]);
      InsertedMembers(fs[0].Lag(), SortedLags(fs[1..]));
    }
  }

  lemma LoudMedian(symbol: string)
    ensures MedianLag(LoudFilings(symbol)) == 0.0
  {
    hide SortedLags, Ascending;
    var fs := LoudFilings(symbol);
    SameLagMedian(fs);
    var lags := SortedLags(fs);
    assert lags[1] in lags && lags[2] in lags;
  }

  lemma LoudStatistics(symbol: string)
    ensures var fs := LoudFilings(symbol);
            FreshestAge(fs, 0) == 0 && |Traders(fs)| == 3 && Largest(fs) == Some(250000.0)
  {
    hide Traders, FreshestAge, Largest;
    var fs := LoudFilings(symbol);
    assert fs[0] in fs;
    LoudTraders(symbol);
    assert fs[0].UpperAmount() == Some(250000.0);
  }

  lemma LoudTraders(symbol: string)
    ensures Traders(LoudFilings(symbol)) == {"a", "b", "c"}
  {
    var fs := LoudFilings(symbol);
    assert fs[0].politician == "a" && fs[1].politician == "b" && fs[2].politician == "c";
    assert fs[0] in fs && fs[1] in fs && fs[2] in fs;
  }

  lemma LoudRepeats(symbol: string)
    ensures Repeats(LoudFilings(symbol))
  {
    hide Passes;
    var fs := LoudFilings(symbol);
    LoudTraders(symbol);
    assert "a" in Traders(fs);
    var test := ByTrader("a");
    assert Passes(fs[0], test) && Passes(fs[3], test) by { ByName("a", fs[0]); ByName("a", fs[3]); }
    assert fs[1..][1..][1..] == [fs[3]];
    assert Those([fs[3]], test) == [fs[3]];
    assert |Those(fs[1..][1..], test)| >= 1 && |Those(fs[1..], test)| >= 1;
  }

  lemma ByName(name: string, f: Filing)
    ensures Passes(f, ByTrader(name)) == (f.politician == name)
  {
  }

  lemma LoudStrength(symbol: string, policy: Policy)
    requires policy.Valid()
    ensures Strength(LoudFilings(symbol), 0, policy) == 100
  {
    hide FreshestAge, MedianLag, Traders, Repeats, Largest;
    LoudStatistics(symbol);
    LoudMedian(symbol);
    LoudRepeats(symbol);
  }

  lemma WholeAdjustment(policy: Policy)
    requires policy.Valid()
    ensures Adjustment(100, policy) == policy.maximumPriorityAdjustment
  {
    var maximum := policy.maximumPriorityAdjustment;
    assert 100 * maximum / 100 == maximum && 100 * maximum % 100 == 0;
  }

  /** A maximum above 15 makes one day of loud purchases raise. */
  lemma LargeMaximumRaises(symbol: string, policy: Policy)
    requires policy.Valid() && policy.maximumPriorityAdjustment > 15 && symbol != ""
    ensures Score(symbol, LoudTrades(symbol), 0, policy) == Err(AdjustmentOutOfRange)
  {
    hide Strength, Traders, FreshestAge, Largest, MedianLag, Adjustment, Eligible, On, All, DirectionOf;
    var ts := LoudTrades(symbol);
    EveryEligible(ts, symbol, 0, policy);
    EveryPurchase(ts);
    LoudSelected(symbol);
    LoudStrength(symbol, policy);
    WholeAdjustment(policy);
  }

  /** Every signal is accepted if and only if the maximum adjustment is at most 15. */
  lemma AcceptsEveryScoreExactly(symbol: string, policy: Policy)
    requires policy.Valid() && symbol != ""
    ensures (forall ts, asOf :: Score(symbol, ts, asOf, policy).Ok?) <==> policy.maximumPriorityAdjustment <= 15
  {
    hide Score;
    if policy.maximumPriorityAdjustment <= 15 {
      forall ts, asOf ensures Score(symbol, ts, asOf, policy).Ok? {
        SmallMaximumNeverRaises(symbol, ts, asOf, policy);
      }
    } else {
      LargeMaximumRaises(symbol, policy);
    }
  }

  lemma AdjustmentNotNegative(net: int, policy: Policy)
    requires policy.Valid() && 0 <= net <= 100
    ensures 0 <= Adjustment(net, policy) <= policy.maximumPriorityAdjustment
  {
    ClampIsIdle(net, policy);
    assert net * policy.maximumPriorityAdjustment >= 0;
  }

  /** Purchases alone are bullish and never lower the priority; together with
    * `SwapMirrors`, sales alone are bearish and never raise it. */
  lemma PurchasesAreBullish(symbol: string, ts: seq<Trade>, asOf: int, policy: Policy)
    requires policy.Valid() && symbol != ""
    requires var es := Eligible(ts, symbol, asOf, policy); On(es, Purchase) != [] && On(es, Sale) == []
    requires Score(symbol, ts, asOf, policy).Ok?
    ensures var signal := Score(symbol, ts, asOf, policy).value;
            && signal.available && signal.direction == Bullish
            && 0 <= signal.priorityAdjustment <= policy.maximumPriorityAdjustment
            && signal.score == Strength(On(Eligible(ts, symbol, asOf, policy), Purchase), asOf, policy) >= 20
  {
    hide Strength, Traders, FreshestAge, Largest, MedianLag, Adjustment, Eligible, On, All;
    var es := Eligible(ts, symbol, asOf, policy);
    NothingOn(Purchase);
    AdjustmentNotNegative(Strength(On(es, Purchase), asOf, policy), policy);
  }

  lemma NothingOn(side: Side)
    ensures On([], side) == []
  {
  }
}
