/** The accounting of a trading account as values: what a purchase, a sale and a
  * replay of the ledger do (volcanoes/portfolio/portfolio.py,
  * volcanoes/domain/position.py, volcanoes/ledger/ledger.py).
  */
module Accounts {
  import opened Wrappers
  import opened Money

  datatype Holding = Holding(quantity: int, averagePrice: real) {
    /** Cost basis, which is what the account counts as market value. */
    function Cost(): real { quantity as real * averagePrice }
  }

  datatype EntryType = BuyEntry | SellEntry

  datatype LedgerEntry = LedgerEntry(entryType: EntryType, amount: real, symbol: string, quantity: int)

  type Book = map<string, Holding>

  datatype Account = Account(
    startingCash: real,
    cash: real,
    realizedPnl: real,
    book: Book,
    entries: seq<LedgerEntry>)

  datatype TradeError =
    | EmptySymbol
    | QuantityNotPositive
    | PriceNotPositive
    | InsufficientCash
    | NoPosition
    | SellsMoreThanOwned

  function Opened(startingCash: real): Account {
    Account(startingCash, startingCash, 0.0, map[], [])
  }

  /** The holding after buying more of it at a price. */
  function Averaged(h: Holding, quantity: int, price: real): Holding
    requires h.quantity + quantity != 0
  {
    Holding(h.quantity + quantity, (h.Cost() + quantity as real * price) / (h.quantity + quantity) as real)
  }

  function InputError(symbol: string, quantity: int, price: real): Option<TradeError> {
    if symbol == "" then Some(EmptySymbol)
    else if quantity <= 0 then Some(QuantityNotPositive)
    else if price <= 0.0 then Some(PriceNotPositive)
    else None
  }

  /** No holding is empty: `sell` removes a position that reaches zero. */
  predicate Positive(book: Book) {
    forall s :: s in book ==> book[s].quantity > 0 && book[s].averagePrice > 0.0
  }

  function Bought(a: Account, symbol: string, quantity: int, price: real): Result<Account, TradeError>
    requires Positive(a.book)
  {
    var cost := quantity as real * price;
    if InputError(symbol, quantity, price).Some? then Err(InputError(symbol, quantity, price).value)
    else if cost > a.cash then Err(InsufficientCash)
    else
      var h := if symbol in a.book then Averaged(a.book[symbol], quantity, price) else Holding(quantity, price);
      Ok(a.(cash := a.cash - cost, book := a.book[symbol := h],
            entries := a.entries + [LedgerEntry(BuyEntry, -cost, symbol, quantity)]))
  }

  function Sold(a: Account, symbol: string, quantity: int, price: real): Result<Account, TradeError> {
    var proceeds := quantity as real * price;
    if InputError(symbol, quantity, price).Some? then Err(InputError(symbol, quantity, price).value)
    else if symbol !in a.book then Err(NoPosition)
    else if quantity > a.book[symbol].quantity then Err(SellsMoreThanOwned)
    else
      var h := a.book[symbol];
      Ok(a.(cash := a.cash + proceeds,
            realizedPnl := a.realizedPnl + (price - h.averagePrice) * quantity as real,
            book := Reduced(a.book, symbol, quantity),
            entries := a.entries + [LedgerEntry(SellEntry, proceeds, symbol, quantity)]))
  }

  /** The book with `quantity` fewer of a symbol; an empty position is removed. */
  function Reduced(book: Book, symbol: string, quantity: int): Book
    requires symbol in book
  {
    var h := book[symbol];
    if h.quantity == quantity then book - {symbol} else book[symbol := h.(quantity := h.quantity - quantity)]
  }

  // ---- Value of a book -----------------------------------------------------------

  ghost function Invested(book: Book): real
    decreases |book|
  {
    if book == map[] then 0.0
    else
      var s :| s in book;
      book[s].Cost() + Invested(book - {s})
  }

  ghost function Equity(a: Account): real { a.cash + Invested(a.book) }

  lemma {:induction false} InvestedSplit(book: Book, s: string)
    requires s in book
    ensures Invested(book) == book[s].Cost() + Invested(book - {s})
    decreases |book|
  {
    var t :| t in book && Invested(book) == book[t].Cost() + Invested(book - {t});
    if t != s {
      InvestedSplit(book - {t}, s);
      InvestedSplit(book - {s}, t);
      assert book - {t} - {s} == book - {s} - {t};
    }
  }

  /** Replacing or adding one holding changes the total by its own change. */
  lemma InvestedUpdate(book: Book, s: string, h: Holding)
    ensures Invested(book[s := h]) == Invested(book) + h.Cost() - if s in book then book[s].Cost() else 0.0
  {
    InvestedSplit(book[s := h], s);
    assert book[s := h] - {s} == book - {s};
    if s in book {
      InvestedSplit(book, s);
    } else {
      assert book - {s} == book;
    }
  }

  lemma CostPositive(h: Holding)
    requires h.quantity > 0 && h.averagePrice > 0.0
    ensures h.Cost() > 0.0
  {
    ScaleStrict(0.0, h.quantity as real, h.averagePrice);
  }

  lemma {:induction false} InvestedNotNegative(book: Book)
    requires Positive(book)
    ensures Invested(book) >= 0.0
    decreases |book|
  {
    hide Holding.Cost;
    if book != map[] {
      var s :| s in book;
      InvestedSplit(book, s);
      CostPositive(book[s]);
      InvestedNotNegative(book - {s});
    }
  }

  /** Averaging keeps the cost basis: old cost plus what was paid. */
  lemma AveragedCost(h: Holding, quantity: int, price: real)
    requires h.quantity > 0 && h.averagePrice > 0.0 && quantity > 0 && price > 0.0
    ensures Averaged(h, quantity, price).Cost() == h.Cost() + quantity as real * price
    ensures Averaged(h, quantity, price).averagePrice > 0.0
  {
    var total := h.Cost() + quantity as real * price;
    var n := (h.quantity + quantity) as real;
    ScaleStrict(0.0, quantity as real, price);
    ScaleStrict(0.0, h.quantity as real, h.averagePrice);
    DivideBack(total, n);
  }

  lemma AveragedPositive(h: Holding, quantity: int, price: real)
    requires h.quantity > 0 && h.averagePrice > 0.0 && quantity > 0 && price > 0.0
    ensures var h' := Averaged(h, quantity, price); h'.quantity > 0 && h'.averagePrice > 0.0
  {
    AveragedCost(h, quantity, price);
  }

  lemma DivideBack(total: real, n: real)
    requires n > 0.0
    ensures n * (total / n) == total
    ensures total > 0.0 ==> total / n > 0.0
  {
  }

  // ---- One trade -------------------------------------------------------------------

  /** What the account always satisfies. */
  ghost predicate AccountInv(a: Account) {
    && Positive(a.book)
    && a.startingCash > 0.0
    && a.cash >= 0.0
    && Equity(a) == a.startingCash + a.realizedPnl
    && a.cash == a.startingCash + TotalAmount(a.entries)
    && Replay(Opened(a.startingCash), a.entries) == a
  }

  function TotalAmount(entries: seq<LedgerEntry>): real {
    if entries == [] then 0.0 else TotalAmount(entries[..|entries| - 1]) + entries[|entries| - 1].amount
  }

  /** Rebuild an account from ledger entries alone, whatever they are: the unit
    * price is read off the amount. */
  function Replay(a: Account, entries: seq<LedgerEntry>): Account {
    if entries == [] then a
    else ReplayEntry(Replay(a, entries[..|entries| - 1]), entries[|entries| - 1])
  }

  function ReplayEntry(a: Account, e: LedgerEntry): Account {
    var next := a.(cash := a.cash + e.amount, entries := a.entries + [e]);
    var held := if e.symbol in a.book then a.book[e.symbol] else Holding(0, 0.0);
    match e.entryType
    case BuyEntry =>
      if held.quantity + e.quantity == 0 then next
      else next.(book := a.book[e.symbol := Holding(held.quantity + e.quantity,
                                                    (held.Cost() - e.amount) / (held.quantity + e.quantity) as real)])
    case SellEntry =>
      var cost := held.averagePrice * e.quantity as real;
      next.(realizedPnl := a.realizedPnl + e.amount - cost,
            book := if e.symbol in a.book then Reduced(a.book, e.symbol, e.quantity) else a.book)
  }

  lemma ReplayAppend(a: Account, entries: seq<LedgerEntry>, e: LedgerEntry)
    ensures Replay(a, entries + [e]) == ReplayEntry(Replay(a, entries), e)
    ensures TotalAmount(entries + [e]) == TotalAmount(entries) + e.amount
  {
    assert (entries + [e])[..|entries|] == entries;
  }

  /** A purchase moves cash into the book at cost and leaves equity alone. */
  lemma BuyKeeps(a: Account, symbol: string, quantity: int, price: real)
    requires AccountInv(a) && Bought(a, symbol, quantity, price).Ok?
    ensures var a' := Bought(a, symbol, quantity, price).value;
            var cost := quantity as real * price;
            && AccountInv(a')
            && Equity(a') == Equity(a)
            && Invested(a'.book) == Invested(a.book) + cost
            && |a'.book| == |a.book| + (if symbol in a.book then 0 else 1)
            && cost > 0.0
  {
    hide Replay, TotalAmount, Invested;
    var a' := Bought(a, symbol, quantity, price).value;
    var cost := quantity as real * price;
    ScaleStrict(0.0, quantity as real, price);
    if symbol in a.book {
      AveragedCost(a.book[symbol], quantity, price);
    } else {
      assert Holding(quantity, price).Cost() == cost;
    }
    InvestedUpdate(a.book, symbol, a'.book[symbol]);
    var e := LedgerEntry(BuyEntry, -cost, symbol, quantity);
    ReplayAppend(Opened(a.startingCash), a.entries, e);
    BuyReplays(a, symbol, quantity, price);
  }

  lemma BuyReplays(a: Account, symbol: string, quantity: int, price: real)
    requires Positive(a.book) && Bought(a, symbol, quantity, price).Ok?
    ensures ReplayEntry(a, LedgerEntry(BuyEntry, -(quantity as real * price), symbol, quantity))
            == Bought(a, symbol, quantity, price).value
  {
    var cost := quantity as real * price;
    if symbol !in a.book {
      assert Holding(0, 0.0).Cost() == 0.0;
      DivideOut(cost, price, quantity as real);
    }
  }

  lemma DivideOut(total: real, price: real, n: real)
    requires n > 0.0 && total == n * price
    ensures total / n == price
  {
  }

  /** A sale realizes the difference to the average price, and nothing else. */
  lemma SellKeeps(a: Account, symbol: string, quantity: int, price: real)
    requires AccountInv(a) && Sold(a, symbol, quantity, price).Ok?
    ensures var a' := Sold(a, symbol, quantity, price).value;
            var cost := quantity as real * a.book[symbol].averagePrice;
            && AccountInv(a')
            && Equity(a') == Equity(a) + quantity as real * price - cost
            && Invested(a'.book) == Invested(a.book) - cost
            && |a'.book| <= |a.book|
            && cost > 0.0 && quantity as real * price > 0.0
            && Equity(a') > 0.0
  {
    hide Replay, TotalAmount, Invested, ReplayEntry, Reduced;
    var a' := Sold(a, symbol, quantity, price).value;
    var h := a.book[symbol];
    ScaleStrict(0.0, quantity as real, price);
    ScaleStrict(0.0, quantity as real, h.averagePrice);
    ReducedInvested(a.book, symbol, quantity);
    InvestedNotNegative(a'.book);
    Distribute(price, h.averagePrice, quantity as real);
    SellReplays(a, symbol, quantity, price);
    ReplayAppend(Opened(a.startingCash), a.entries, LedgerEntry(SellEntry, quantity as real * price, symbol, quantity));
  }

  lemma SellReplays(a: Account, symbol: string, quantity: int, price: real)
    requires Sold(a, symbol, quantity, price).Ok?
    ensures ReplayEntry(a, LedgerEntry(SellEntry, quantity as real * price, symbol, quantity))
            == Sold(a, symbol, quantity, price).value
  {
    Distribute(price, a.book[symbol].averagePrice, quantity as real);
  }

  // ---- When a trade goes through -------------------------------------------------

  /** A purchase succeeds exactly when its input is in order and its cost is within
    * the cash; it then opens the symbol at the price, or averages it, and touches no
    * other holding. */
  lemma PurchaseExactly(a: Account, symbol: string, quantity: int, price: real)
    requires Positive(a.book)
    ensures var r := Bought(a, symbol, quantity, price);
            var cost := quantity as real * price;
            && (r.Ok? <==> symbol != "" && quantity > 0 && price > 0.0 && cost <= a.cash)
            && (r == Err(EmptySymbol) <==> symbol == "")
            && (r == Err(QuantityNotPositive) <==> symbol != "" && quantity <= 0)
            && (r == Err(PriceNotPositive) <==> symbol != "" && quantity > 0 && price <= 0.0)
            && (r == Err(InsufficientCash) <==> symbol != "" && quantity > 0 && price > 0.0 && cost > a.cash)
            && (r.Ok? ==>
                  var a' := r.value;
                  && a'.cash == a.cash - cost && a'.realizedPnl == a.realizedPnl && a'.startingCash == a.startingCash
                  && a'.book.Keys == a.book.Keys + {symbol}
                  && (forall s :: s in a.book && s != symbol ==> a'.book[s] == a.book[s])
                  && a'.book[symbol].quantity == quantity + (if symbol in a.book then a.book[symbol].quantity else 0)
                  && a'.book[symbol].Cost() == cost + (if symbol in a.book then a.book[symbol].Cost() else 0.0)
                  && a'.entries == a.entries + [LedgerEntry(BuyEntry, -cost, symbol, quantity)])
  {
    hide Averaged, Holding.Cost;
    if Bought(a, symbol, quantity, price).Ok? {
      if symbol in a.book {
        AveragedCost(a.book[symbol], quantity, price);
        AveragedQuantity(a.book[symbol], quantity, price);
      } else {
        CostIsProduct(quantity, price);
      }
    }
  }

  lemma AveragedQuantity(h: Holding, quantity: int, price: real)
    requires h.quantity + quantity != 0
    ensures Averaged(h, quantity, price).quantity == h.quantity + quantity
  {
  }

  lemma CostIsProduct(quantity: int, price: real)
    ensures Holding(quantity, price).Cost() == quantity as real * price
  {
  }

  /** A sale succeeds exactly when its input is in order and no more is sold than is
    * held, the whole holding included; it lowers the holding, or removes it when
    * nothing is left, at an unchanged average price, and touches no other. */
  lemma SaleExactly(a: Account, symbol: string, quantity: int, price: real)
    requires Positive(a.book)
    ensures var r := Sold(a, symbol, quantity, price);
            var inOrder := symbol != "" && quantity > 0 && price > 0.0;
            var proceeds := quantity as real * price;
            && (r.Ok? <==> inOrder && symbol in a.book && quantity <= a.book[symbol].quantity)
            && (r == Err(EmptySymbol) <==> symbol == "")
            && (r == Err(QuantityNotPositive) <==> symbol != "" && quantity <= 0)
            && (r == Err(PriceNotPositive) <==> symbol != "" && quantity > 0 && price <= 0.0)
            && (r == Err(NoPosition) <==> inOrder && symbol !in a.book)
            && (r == Err(SellsMoreThanOwned) <==> inOrder && symbol in a.book && quantity > a.book[symbol].quantity)
            && (r.Ok? ==>
                  var a', h := r.value, a.book[symbol];
                  && a'.cash == a.cash + proceeds && a'.startingCash == a.startingCash
                  && a'.realizedPnl == a.realizedPnl + proceeds - quantity as real * h.averagePrice
                  && (forall s :: s in a.book && s != symbol ==> s in a'.book && a'.book[s] == a.book[s])
                  && a'.book.Keys == (if quantity == h.quantity then a.book.Keys - {symbol} else a.book.Keys)
                  && (symbol in a'.book ==> a'.book[symbol] == Holding(h.quantity - quantity, h.averagePrice))
                  && a'.entries == a.entries + [LedgerEntry(SellEntry, proceeds, symbol, quantity)])
  {
    if Sold(a, symbol, quantity, price).Ok? {
      Distribute(price, a.book[symbol].averagePrice, quantity as real);
    }
  }

  lemma Distribute(x: real, y: real, n: real)
    ensures (x - y) * n == n * x - n * y
  {
  }

  /** Buying a new symbol and selling all of it at the same price always goes
    * through, and leaves nothing behind but two ledger entries that cancel. */
  lemma BuyThenSellAll(a: Account, symbol: string, quantity: int, price: real)
    requires Positive(a.book) && symbol !in a.book && Bought(a, symbol, quantity, price).Ok?
    ensures var bought := Bought(a, symbol, quantity, price).value;
            var sold := Sold(bought, symbol, quantity, price);
            && Positive(bought.book) && sold.Ok?
            && sold.value.(entries := a.entries) == a
            && sold.value.entries
               == a.entries + [LedgerEntry(BuyEntry, -(quantity as real * price), symbol, quantity),
                               LedgerEntry(SellEntry, quantity as real * price, symbol, quantity)]
            && TotalAmount(sold.value.entries) == TotalAmount(a.entries)
  {
    hide TotalAmount, Holding.Cost;
    SoldOut(a, symbol, quantity, price);
    var cost := quantity as real * price;
    EntriesCancel(a, LedgerEntry(BuyEntry, -cost, symbol, quantity), LedgerEntry(SellEntry, cost, symbol, quantity));
  }

  /** The sale of the round trip, its ledger written out. */
  lemma SoldOut(a: Account, symbol: string, quantity: int, price: real)
    requires Positive(a.book) && symbol !in a.book && Bought(a, symbol, quantity, price).Ok?
    ensures var bought := Bought(a, symbol, quantity, price).value;
            var cost := quantity as real * price;
            && Positive(bought.book)
            && Sold(bought, symbol, quantity, price)
               == Ok(a.(entries := (a.entries + [LedgerEntry(BuyEntry, -cost, symbol, quantity)])
                                   + [LedgerEntry(SellEntry, cost, symbol, quantity)]))
  {
    hide Holding.Cost;
    var bought := Bought(a, symbol, quantity, price).value;
    var cost := quantity as real * price;
    NoGain(price, quantity as real);
    assert bought.book == a.book[symbol := Holding(quantity, price)] && bought.cash == a.cash - cost;
    RemovedAgain(a.book, symbol, Holding(quantity, price));
    var sold := Sold(bought, symbol, quantity, price).value;
    assert sold.cash == a.cash && sold.startingCash == a.startingCash;
    assert sold.realizedPnl == a.realizedPnl;
    assert sold.book == a.book;
  }

  lemma NoGain(price: real, n: real)
    ensures (price - price) * n == 0.0
  {
  }

  lemma RemovedAgain(book: Book, symbol: string, h: Holding)
    requires symbol !in book
    ensures Reduced(book[symbol := h], symbol, h.quantity) == book
  {
    assert book[symbol := h] - {symbol} == book;
  }

  lemma EntriesCancel(a: Account, buy: LedgerEntry, sell: LedgerEntry)
    requires buy.amount + sell.amount == 0.0
    ensures (a.entries + [buy]) + [sell] == a.entries + [buy, sell]
    ensures TotalAmount(a.entries + [buy, sell]) == TotalAmount(a.entries)
  {
    hide TotalAmount, Replay, ReplayEntry;
    assert (a.entries + [buy]) + [sell] == a.entries + [buy, sell];
    ReplayAppend(a, a.entries, buy);
    ReplayAppend(a, a.entries + [buy], sell);
  }

  /** Selling in two parts goes through exactly when selling the sum does, and leaves
    * the same cash, profit and book. */
  lemma SaleSplits(a: Account, symbol: string, first: int, second: int, price: real)
    requires Positive(a.book) && first > 0 && second > 0
    ensures var whole, part := Sold(a, symbol, first + second, price), Sold(a, symbol, first, price);
            && (whole.Ok? <==> part.Ok? && Sold(part.value, symbol, second, price).Ok?)
            && (whole.Ok? ==>
                  var parts := Sold(part.value, symbol, second, price).value;
                  parts.(entries := whole.value.entries) == whole.value)
  {
    var whole, part := Sold(a, symbol, first + second, price), Sold(a, symbol, first, price);
    if whole.Ok? {
      var h := a.book[symbol];
      SumTimes(first, second, price);
      SumTimes(first, second, price - h.averagePrice);
      ReducedTwice(a.book, symbol, first, second);
    }
  }

  lemma SumTimes(m: int, n: int, x: real)
    ensures (m + n) as real * x == m as real * x + n as real * x
    ensures x * (m + n) as real == x * m as real + x * n as real
  {
    assert (m + n) as real == m as real + n as real;
  }

  lemma ReducedTwice(book: Book, symbol: string, first: int, second: int)
    requires symbol in book && first > 0 && second > 0 && first + second <= book[symbol].quantity
    ensures symbol in Reduced(book, symbol, first)
    ensures Reduced(Reduced(book, symbol, first), symbol, second) == Reduced(book, symbol, first + second)
  {
    var h := book[symbol];
    assert book[symbol := h.(quantity := h.quantity - first)] - {symbol} == book - {symbol};
  }

  lemma ReducedInvested(book: Book, symbol: string, quantity: int)
    requires symbol in book && Positive(book) && 0 < quantity <= book[symbol].quantity
    ensures var book' := Reduced(book, symbol, quantity);
            && Positive(book') && |book'| <= |book|
            && Invested(book') == Invested(book) - quantity as real * book[symbol].averagePrice
  {
    hide Invested, Holding.Cost;
    var h := book[symbol];
    CostOfRest(h, quantity);
    if h.quantity == quantity {
      RemovedHolding(book, symbol);
    } else {
      ReplacedHolding(book, symbol, h.(quantity := h.quantity - quantity));
    }
  }

  lemma RemovedHolding(book: Book, symbol: string)
    requires symbol in book && Positive(book)
    ensures Positive(book - {symbol}) && |book - {symbol}| <= |book|
    ensures Invested(book - {symbol}) == Invested(book) - book[symbol].Cost()
  {
    hide Invested, Holding.Cost;
    InvestedSplit(book, symbol);
    assert (book - {symbol}).Keys == book.Keys - {symbol};
  }

  lemma ReplacedHolding(book: Book, symbol: string, h: Holding)
    requires symbol in book && Positive(book) && h.quantity > 0 && h.averagePrice > 0.0
    ensures Positive(book[symbol := h]) && |book[symbol := h]| == |book|
    ensures Invested(book[symbol := h]) == Invested(book) + h.Cost() - book[symbol].Cost()
  {
    hide Invested, Holding.Cost;
    InvestedUpdate(book, symbol, h);
    assert book[symbol := h].Keys == book.Keys;
  }

  lemma CostOfRest(h: Holding, quantity: int)
    ensures h.(quantity := h.quantity - quantity).Cost() == h.Cost() - quantity as real * h.averagePrice
    ensures quantity == h.quantity ==> quantity as real * h.averagePrice == h.Cost()
  {
    assert (h.quantity - quantity) as real == h.quantity as real - quantity as real;
  }

  // ---- Any sequence of trades --------------------------------------------------------

  datatype Trade =
    | BuyTrade(symbol: string, quantity: int, price: real)
    | SellTrade(symbol: string, quantity: int, price: real)

  function Attempted(a: Account, t: Trade): Result<Account, TradeError>
    requires Positive(a.book)
  {
    match t
    case BuyTrade(s, q, p) => Bought(a, s, q, p)
    case SellTrade(s, q, p) => Sold(a, s, q, p)
  }

  /** A trade that raises leaves the account as it was. */
  function Traded(a: Account, t: Trade): Account
    requires Positive(a.book)
  {
    var r := Attempted(a, t);
    if r.Ok? then r.value else a
  }

  ghost predicate Reaches(a: Account, trades: seq<Trade>, a': Account)
    decreases |trades|
  {
    if trades == [] then a' == a
    else Positive(a.book) && Reaches(Traded(a, trades[0]), trades[1..], a')
  }

  lemma TradeKeeps(a: Account, t: Trade)
    requires AccountInv(a)
    ensures AccountInv(Traded(a, t))
  {
    hide AccountInv;
    AccountIsPositive(a);
    match t
    case BuyTrade(s, q, p) => if Bought(a, s, q, p).Ok? { BuyKeeps(a, s, q, p); }
    case SellTrade(s, q, p) => if Sold(a, s, q, p).Ok? { SellKeeps(a, s, q, p); }
  }

  lemma AccountIsPositive(a: Account)
    requires AccountInv(a)
    ensures Positive(a.book)
  {
  }

  lemma OpenedKeeps(startingCash: real)
    requires startingCash > 0.0
    ensures AccountInv(Opened(startingCash))
  {
  }

  lemma {:induction false} TradesKeep(a: Account, trades: seq<Trade>, a': Account)
    requires AccountInv(a) && Reaches(a, trades, a')
    ensures AccountInv(a') && a'.startingCash == a.startingCash
    decreases |trades|
  {
    hide AccountInv;
    if trades != [] {
      TradeKeeps(a, trades[0]);
      TradesKeep(Traded(a, trades[0]), trades[1..], a');
    }
  }

  /** After any purchases and sales, successful or refused, a fresh account is the
    * replay of its own ledger; equity is starting cash plus realized profit, and
    * cash is starting cash plus the ledger amounts. */
  lemma LedgerFold(startingCash: real, trades: seq<Trade>, a: Account)
    requires startingCash > 0.0 && Reaches(Opened(startingCash), trades, a)
    ensures Replay(Opened(startingCash), a.entries) == a
    ensures Equity(a) == startingCash + a.realizedPnl
    ensures a.cash == startingCash + TotalAmount(a.entries)
    ensures a.cash >= 0.0 && Equity(a) >= 0.0
  {
    OpenedKeeps(startingCash);
    TradesKeep(Opened(startingCash), trades, a);
    InvestedNotNegative(a.book);
  }
}
