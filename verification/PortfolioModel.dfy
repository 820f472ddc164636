/** The mutable trading account (volcanoes/portfolio/portfolio.py), its positions
  * and ledger (volcanoes/domain/position.py, volcanoes/ledger/ledger.py).
  * Each method is proved against the value functions of `Accounts`. Symbols stand
  * for their normalized form.
  */
module PortfolioModel {
  import opened Wrappers
  import opened Accounts
  import opened TradePolicies

  class Position {
    const symbol: string
    var quantity: int
    var averagePrice: real

    constructor (symbol: string, quantity: int, averagePrice: real)
      ensures this.symbol == symbol && this.quantity == quantity && this.averagePrice == averagePrice
    {
      this.symbol, this.quantity, this.averagePrice := symbol, quantity, averagePrice;
    }

    function AsHolding(): Holding
      reads this
    {
      Holding(quantity, averagePrice)
    }

    function MarketValue(): (value: real)
      reads this
      ensures value == AsHolding().Cost()
    {
      quantity as real * averagePrice
    }

    method UpdateAveragePrice(purchaseQuantity: int, purchasePrice: real) returns (error: Option<TradeError>)
      requires quantity >= 0
      modifies this
      ensures error == if purchaseQuantity <= 0 then Some(QuantityNotPositive)
                       else if purchasePrice <= 0.0 then Some(PriceNotPositive) else None
      ensures AsHolding() == if error.Some? then old(AsHolding())
                             else Averaged(old(AsHolding()), purchaseQuantity, purchasePrice)
    {
      if purchaseQuantity <= 0 {
        return Some(QuantityNotPositive);
      }
      if purchasePrice <= 0.0 {
        return Some(PriceNotPositive);
      }
      var totalCost := MarketValue() + purchaseQuantity as real * purchasePrice;
      quantity := quantity + purchaseQuantity;
      averagePrice := totalCost / quantity as real;
      error := None;
    }
  }

  class Ledger {
    var entries: seq<LedgerEntry>

    constructor ()
      ensures entries == []
    {
      entries := [];
    }

    method Record(entry: LedgerEntry)
      modifies this
      ensures entries == old(entries) + [entry]
    {
      entries := entries + [entry];
    }
  }

  ghost function Holdings(positions: map<string, Position>): Book
    reads positions.Values
  {
    map s | s in positions :: positions[s].AsHolding()
  }

  /** The read-only view the planning policies take of an account. */
  ghost function ViewOf(a: Account): PortfolioView {
    PortfolioView(Equity(a), a.startingCash, a.realizedPnl, a.cash, Invested(a.book), |a.book|,
                  map s | s in a.book :: a.book[s].quantity)
  }

  class Portfolio {
    const startingCash: real
    const ledger: Ledger
    var cash: real
    var positions: map<string, Position>
    var realizedPnl: real

    constructor (startingCash: real)
      requires startingCash > 0.0
      ensures Valid() && fresh(ledger) && AsAccount() == Opened(startingCash)
    {
      this.startingCash, cash := startingCash, startingCash;
      positions, realizedPnl := map[], 0.0;
      ledger := new Ledger();
    }

    /** Positions are filed under their own symbol, so no two keys share one, and
      * none of them is empty. */
    ghost predicate Valid()
      reads this, positions.Values
    {
      && (forall s :: s in positions ==> positions[s].symbol == s)
      && Positive(Holdings(positions))
    }

    lemma ValidIsPositive()
      requires Valid()
      ensures Positive(AsAccount().book)
    {
    }

    ghost function AsAccount(): Account
      reads this, positions.Values, ledger
    {
      Account(startingCash, cash, realizedPnl, Holdings(positions), ledger.entries)
    }

    method Buy(symbol: string, quantity: int, price: real) returns (error: Option<TradeError>)
      requires Valid()
      modifies this, positions.Values, ledger
      ensures Valid() && fresh(positions.Values - old(positions.Values))
      ensures error.None? <==> symbol != "" && quantity > 0 && price > 0.0 && quantity as real * price <= old(cash)
      ensures var b := Bought(old(AsAccount()), symbol, quantity, price);
              && (error.None? <==> b.Ok?)
              && AsAccount() == (if b.Ok? then b.value else old(AsAccount()))
              && (b.Err? ==> error == Some(b.error))
    {
      hide Averaged, Holding.Cost, Reduced, Positive;
      ValidIsPositive();
      var invalid := InputError(symbol, quantity, price);
      if invalid.Some? {
        return invalid;
      }
      var cost := quantity as real * price;
      if cost > cash {
        return Some(InsufficientCash);
      }
      cash := cash - cost;
      AddShares(symbol, quantity, price);
      ledger.Record(LedgerEntry(BuyEntry, -cost, symbol, quantity));
      error := None;
    }

    /** The part of `buy` that opens a position or averages an existing one. */
    method AddShares(symbol: string, quantity: int, price: real)
      requires Valid() && quantity > 0 && price > 0.0
      modifies this`positions, positions.Values
      ensures Valid() && fresh(positions.Values - old(positions.Values))
      ensures Holdings(positions)
              == (var book := old(Holdings(positions));
                  book[symbol := if symbol in book then Averaged(book[symbol], quantity, price)
                                 else Holding(quantity, price)])
    {
      hide Averaged, Holding.Cost;
      ghost var before := Holdings(positions);
      if symbol !in positions {
        var position := new Position(symbol, quantity, price);
        positions := positions[symbol := position];
        assert Holdings(positions) == before[symbol := Holding(quantity, price)];
      } else {
        AveragedPositive(before[symbol], quantity, price);
        var refused := positions[symbol].UpdateAveragePrice(quantity, price);
        assert Holdings(positions) == before[symbol := Averaged(before[symbol], quantity, price)];
      }
    }

    method Sell(symbol: string, quantity: int, price: real) returns (error: Option<TradeError>)
      requires Valid()
      modifies this, positions.Values, ledger
      ensures Valid() && fresh(positions.Values - old(positions.Values))
      ensures error.None? <==>
                && symbol != "" && quantity > 0 && price > 0.0
                && old(symbol in positions && quantity <= positions[symbol].quantity)
      ensures var r := Sold(old(AsAccount()), symbol, quantity, price);
              && (error.None? <==> r.Ok?)
              && AsAccount() == (if r.Ok? then r.value else old(AsAccount()))
              && (r.Err? ==> error == Some(r.error))
    {
      hide Averaged, Holding.Cost, Reduced, Positive;
      ValidIsPositive();
      var invalid := InputError(symbol, quantity, price);
      if invalid.Some? {
        return invalid;
      }
      if symbol !in positions {
        return Some(NoPosition);
      }
      var position := positions[symbol];
      if quantity > position.quantity {
        return Some(SellsMoreThanOwned);
      }
      var proceeds := quantity as real * price;
      var pnl := (price - position.averagePrice) * quantity as real;
      realizedPnl := realizedPnl + pnl;
      cash := cash + proceeds;
      RemoveShares(symbol, quantity);
      ledger.Record(LedgerEntry(SellEntry, proceeds, symbol, quantity));
      error := None;
    }

    /** The part of `sell` that lowers the position and drops an empty one. */
    method RemoveShares(symbol: string, quantity: int)
      requires Valid() && symbol in positions && 0 < quantity <= positions[symbol].quantity
      modifies this`positions, positions.Values
      ensures Valid() && positions.Values <= old(positions.Values)
      ensures Holdings(positions) == Reduced(old(Holdings(positions)), symbol, quantity)
    {
      ghost var before := Holdings(positions);
      var position := positions[symbol];
      position.quantity := position.quantity - quantity;
      if position.quantity == 0 {
        positions := positions - {symbol};
      }
      assert Holdings(positions) == Reduced(before, symbol, quantity);
    }

    /** The sum over all open positions, in whatever order they come. */
    method InvestedValue() returns (total: real)
      requires Valid()
      ensures total == Invested(Holdings(positions))
    {
      hide *;
      ghost var book := Holdings(positions);
      HoldingsAt(positions);
      total := 0.0;
      var rest := positions.Keys;
      ghost var done: set<string> := {};
      RemainingStart(book);
      while rest != {}
        invariant rest == positions.Keys - done
        invariant total + Remaining(book, done) == Invested(book)
        decreases |rest|
      {
        var s :| s in rest;
        NextHolding(book, done, s);
        total := total + positions[s].MarketValue();
        rest := rest - {s};
        done := done + {s};
      }
      RemainingEnd(book, done);
    }

    method View() returns (view: PortfolioView)
      requires Valid()
      ensures view == ViewOf(AsAccount())
      ensures view.startingCash == startingCash && view.realizedPnl == realizedPnl && view.buyingPower == cash
      ensures view.equity == cash + view.investedValue && view.investedValue == Invested(Holdings(positions))
      ensures view.openPositions == |positions| && view.holdings.Keys == positions.Keys
      ensures forall s :: s in positions ==> view.holdings[s] == positions[s].quantity
    {
      var invested := InvestedValue();
      var quantities := map s | s in positions :: positions[s].quantity;
      ghost var book := Holdings(positions);
      assert book.Keys == positions.Keys;
      assert quantities == map s | s in book :: book[s].quantity;
      view := PortfolioView(cash + invested, startingCash, realizedPnl, cash, invested, |positions|, quantities);
    }
  }

  lemma HoldingsAt(positions: map<string, Position>)
    ensures Holdings(positions).Keys == positions.Keys
    ensures forall s :: s in positions ==> Holdings(positions)[s] == positions[s].AsHolding()
  {
  }

  /** What is still to be added once some symbols are done. */
  ghost function Remaining(book: Book, done: set<string>): real { Invested(book - done) }

  lemma RemainingStart(book: Book)
    ensures Remaining(book, {}) == Invested(book)
  {
    assert book - {} == book;
  }

  lemma RemainingEnd(book: Book, done: set<string>)
    requires book.Keys <= done
    ensures Remaining(book, done) == 0.0
  {
    assert book - done == map[];
  }

  lemma NextHolding(book: Book, done: set<string>, s: string)
    requires s in book && s !in done
    ensures Remaining(book, done) == book[s].Cost() + Remaining(book, done + {s})
  {
    hide Invested, Holding.Cost;
    InvestedSplit(book - done, s);
    assert book - done - {s} == book - (done + {s});
  }

  lemma EmptyInvested()
    ensures Invested(map[]) == 0.0
  {
  }

  // ---- The paper broker (volcanoes/execution/paper_broker.py) ------------------

  datatype OrderStatus = Pending | Filled | Rejected

  class Order {
    const symbol: string
    const side: Side
    const quantity: int
    const price: real
    var status: OrderStatus
    var rejectionReason: Option<TradeError>

    constructor (symbol: string, side: Side, quantity: int, price: real)
      ensures this.symbol == symbol && this.side == side && this.quantity == quantity && this.price == price
      ensures status == Pending && rejectionReason == None
    {
      this.symbol, this.side, this.quantity, this.price := symbol, side, quantity, price;
      status, rejectionReason := Pending, None;
    }

    ghost function AsTrade(): Trade {
      if side == Buy then BuyTrade(symbol, quantity, price) else SellTrade(symbol, quantity, price)
    }

    /** The order's final state tells what happened to the account between two
      * moments: filled, with the trade made, or rejected, with nothing changed. */
    ghost predicate Completed(before: Account, after: Account)
      reads this
    {
      && Positive(before.book)
      && var outcome := Attempted(before, AsTrade());
      && after == Traded(before, AsTrade())
      && status == (if outcome.Ok? then Filled else Rejected)
      && rejectionReason == (if outcome.Ok? then None else Some(outcome.error))
    }

    /** `_fill` and `_reject`. */
    method Complete(error: Option<TradeError>)
      modifies this
      ensures status == (if error.None? then Filled else Rejected) && rejectionReason == error
    {
      status := if error.None? then Filled else Rejected;
      rejectionReason := error;
    }
  }

  class PaperBroker {
    const portfolio: Portfolio
    var orders: seq<Order>

    constructor (portfolio: Portfolio)
      ensures this.portfolio == portfolio && orders == []
    {
      this.portfolio, orders := portfolio, [];
    }

    /** Fill or reject: a filled order has changed the account by its trade, a
      * rejected one has left it alone and says why. */
    method SubmitOrder(order: Order)
      requires portfolio.Valid()
      modifies this, order, portfolio, portfolio.positions.Values, portfolio.ledger
      ensures portfolio.Valid() && fresh(portfolio.positions.Values - old(portfolio.positions.Values))
      ensures order.Completed(old(portfolio.AsAccount()), portfolio.AsAccount())
      ensures orders == old(orders) + [order]
    {
      hide *;
      portfolio.ValidIsPositive();
      if order.side == Buy {
        ProcessBuy(order);
      } else {
        ProcessSell(order);
      }
      orders := orders + [order];
    }

    method ProcessBuy(order: Order)
      requires portfolio.Valid() && order.side == Buy
      modifies order, portfolio, portfolio.positions.Values, portfolio.ledger
      ensures portfolio.Valid() && fresh(portfolio.positions.Values - old(portfolio.positions.Values))
      ensures order.Completed(old(portfolio.AsAccount()), portfolio.AsAccount())
    {
      hide Bought, Portfolio.Valid, Positive, Portfolio.AsAccount;
      portfolio.ValidIsPositive();
      var error := portfolio.Buy(order.symbol, order.quantity, order.price);
      order.Complete(error);
    }

    method ProcessSell(order: Order)
      requires portfolio.Valid() && order.side == Sell
      modifies order, portfolio, portfolio.positions.Values, portfolio.ledger
      ensures portfolio.Valid() && fresh(portfolio.positions.Values - old(portfolio.positions.Values))
      ensures order.Completed(old(portfolio.AsAccount()), portfolio.AsAccount())
    {
      hide Sold, Portfolio.Valid, Positive, Portfolio.AsAccount;
      portfolio.ValidIsPositive();
      var error := portfolio.Sell(order.symbol, order.quantity, order.price);
      order.Complete(error);
    }
  }
}
