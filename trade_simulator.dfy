/** The backtest order simulator (backend/src/utils/tradeSimulator.js): cash
    capital, a symbol-to-position book and an append-only trade log, updated
    in place as orders are filled against market ticks. */
module TradeSimulation {
  import opened Values
  import opened Numeric
  import opened BacktestTypes

  /** The position's `side`: 'long' or 'short'. */
  datatype PositionSide = Long | Short

  datatype SimPosition = SimPosition(
    symbol: string,
    side: PositionSide,
    quantity: real,
    entryPrice: real,
    currentPrice: real,
    unrealizedPnL: real)

  /** One market tick. */
  datatype MarketData = MarketData(
    timestamp: string,
    symbol: string,
    open: real,
    high: real,
    low: real,
    close: real,
    volume: real)

  /** An order. `kind` is the source's `type`; the fill treats 'buy' as a buy
      and every other value as a sell, while the price uses `side`. */
  datatype Order = Order(
    id: string,
    timestamp: string,
    symbol: string,
    kind: string,
    side: string,
    price: real,
    quantity: real,
    status: string)

  datatype Options = Options(
    initialCapital: real,
    maxPositionSize: real,
    maxOpenPositions: real,
    slippage: real,
    commission: real)

  /** The options a caller passes; an absent field keeps its default. */
  datatype OptionOverrides = OptionOverrides(
    initialCapital: Option<real>,
    maxPositionSize: Option<real>,
    maxOpenPositions: Option<real>,
    slippage: Option<real>,
    commission: Option<real>)

  const DefaultOptions := Options(100000.0, 0.1, 5.0, 0.001, 0.001)

  function Pick(x: Option<real>, default: real): real
  {
    if x.Some? then x.value else default
  }

  /** `{ ...defaults, ...options }`. */
  function MergeOptions(o: OptionOverrides): (r: Options)
    ensures o == OptionOverrides(None, None, None, None, None) ==> r == DefaultOptions
    ensures o.initialCapital.Some? ==> r.initialCapital == o.initialCapital.value
    ensures o.initialCapital.None? ==> r.initialCapital == 100000.0
    ensures o.maxPositionSize.Some? ==> r.maxPositionSize == o.maxPositionSize.value
    ensures o.maxPositionSize.None? ==> r.maxPositionSize == 0.1
    ensures o.maxOpenPositions.Some? ==> r.maxOpenPositions == o.maxOpenPositions.value
    ensures o.maxOpenPositions.None? ==> r.maxOpenPositions == 5.0
    ensures o.slippage.Some? ==> r.slippage == o.slippage.value
    ensures o.slippage.None? ==> r.slippage == 0.001
    ensures o.commission.Some? ==> r.commission == o.commission.value
    ensures o.commission.None? ==> r.commission == 0.001
  {
    Options(
      Pick(o.initialCapital, DefaultOptions.initialCapital),
      Pick(o.maxPositionSize, DefaultOptions.maxPositionSize),
      Pick(o.maxOpenPositions, DefaultOptions.maxOpenPositions),
      Pick(o.slippage, DefaultOptions.slippage),
      Pick(o.commission, DefaultOptions.commission))
  }

  /** calculateExecutionPrice: the quoted price moved against the trader by
      the slippage fraction; up for a 'buy' side, down for anything else. */
  function ExecutionPrice(order: Order, slippage: real): (p: real)
    ensures order.side == "buy" ==> p == order.price * (1.0 + slippage)
    ensures order.side != "buy" ==> p == order.price * (1.0 - slippage)
    ensures slippage == 0.0 ==> p == order.price
  {
    var slip := order.price * slippage;
    if order.side == "buy" then order.price + slip else order.price - slip
  }

  /** The execution price differs from the quoted price by the slippage
      fraction of it, upwards for a 'buy' side and downwards otherwise; with a
      non-negative price and slippage a buyer never pays less and a seller
      never receives more than quoted. */
  lemma SlippageAgainstTrader(order: Order, slippage: real)
    ensures order.side == "buy" ==> ExecutionPrice(order, slippage) - order.price == order.price * slippage
    ensures order.side != "buy" ==> order.price - ExecutionPrice(order, slippage) == order.price * slippage
    ensures order.price >= 0.0 && slippage >= 0.0 ==>
      && (order.side == "buy" ==> ExecutionPrice(order, slippage) >= order.price)
      && (order.side != "buy" ==> ExecutionPrice(order, slippage) <= order.price)
  {
    if order.price >= 0.0 && slippage >= 0.0 {
      assert order.price * slippage >= 0.0;
    }
  }

  /** `executionPrice * quantity` plus the commission on it: the notional
      grown by the commission fraction, never below the notional when both
      it and the commission are non-negative. */
  function Cost(executionPrice: real, quantity: real, commission: real): (c: real)
    ensures c == executionPrice * quantity * (1.0 + commission)
    ensures executionPrice * quantity >= 0.0 && commission >= 0.0 ==> c >= executionPrice * quantity
  {
    executionPrice * quantity + executionPrice * quantity * commission
  }

  /** calculateUnrealizedPnL. */
  function UnrealizedPnL(side: PositionSide, quantity: real, entryPrice: real, currentPrice: real): real
  {
    var priceDiff := currentPrice - entryPrice;
    if side == Long then quantity * priceDiff else quantity * -priceDiff
  }

  /** A long and a short of the same size and prices have opposite unrealized
      pnl, and neither has any at the entry price. */
  lemma UnrealizedPnLSymmetric(quantity: real, entryPrice: real, currentPrice: real)
    ensures UnrealizedPnL(Long, quantity, entryPrice, currentPrice)
         == -UnrealizedPnL(Short, quantity, entryPrice, currentPrice)
    ensures UnrealizedPnL(Long, quantity, entryPrice, entryPrice) == 0.0
    ensures UnrealizedPnL(Short, quantity, entryPrice, entryPrice) == 0.0
  {
  }

  /** A long of positive size gains exactly when the price is above entry. */
  lemma LongGainsAboveEntry(quantity: real, entryPrice: real, currentPrice: real)
    requires quantity > 0.0
    ensures UnrealizedPnL(Long, quantity, entryPrice, currentPrice) > 0.0 <==> currentPrice > entryPrice
  {
    var d := currentPrice - entryPrice;
    if d > 0.0 {
      assert quantity * d > 0.0;
    } else {
      assert quantity * d <= 0.0;
    }
  }

  /** The position marked to `close`. */
  function Marked(p: SimPosition, close: real): (m: SimPosition)
    ensures m.currentPrice == close
    ensures m.unrealizedPnL == UnrealizedPnL(m.side, m.quantity, m.entryPrice, close)
    ensures m.(currentPrice := p.currentPrice, unrealizedPnL := p.unrealizedPnL) == p
  {
    p.(currentPrice := close, unrealizedPnL := UnrealizedPnL(p.side, p.quantity, p.entryPrice, close))
  }

  /** The book is keyed by symbol, holds no flat position, and each position's
      unrealized pnl matches its own fields. */
  ghost predicate BookWellFormed(book: map<string, SimPosition>)
  {
    forall s :: s in book ==>
      && book[s].symbol == s
      && book[s].quantity != 0.0
      && book[s].unrealizedPnL == UnrealizedPnL(book[s].side, book[s].quantity, book[s].entryPrice, book[s].currentPrice)
  }

  /** A buy that would bring an existing position to exactly zero, where
      the source divides by zero and leaves the flat position in the book. */
  predicate BuyFlattens(book: map<string, SimPosition>, trade: Trade)
  {
    trade.kind == "buy" && trade.symbol in book && book[trade.symbol].quantity + trade.quantity == 0.0
  }

  /** The position the fill starts from: the stored one, or a fresh one
      with nothing held. */
  function Prior(book: map<string, SimPosition>, trade: Trade): SimPosition
  {
    if trade.symbol in book then book[trade.symbol]
    else SimPosition(trade.symbol, if trade.kind == "buy" then Long else Short, 0.0, 0.0, trade.price, 0.0)
  }

  /** What a trade adds to the held quantity: its quantity for a 'buy', its
      negation for anything else. */
  function Signed(trade: Trade): real
  {
    if trade.kind == "buy" then trade.quantity else -trade.quantity
  }

  /** updatePosition: the book after `trade` is applied and its position
      marked to the tick's `close`. The traded symbol stays in the book
      exactly when the quantity it then holds is not zero. */
  function ApplyFill(book: map<string, SimPosition>, trade: Trade, close: real): (r: map<string, SimPosition>)
    requires !BuyFlattens(book, trade)
    ensures trade.symbol in r <==> Prior(book, trade).quantity + Signed(trade) != 0.0
    ensures trade.symbol in r ==>
      && r[trade.symbol].quantity == Prior(book, trade).quantity + Signed(trade)
      && r[trade.symbol].currentPrice == close
      && r[trade.symbol].side == Prior(book, trade).side
  {
    var sym := trade.symbol;
    var q := trade.quantity;
    var p := Prior(book, trade);
    if trade.kind == "buy" then
      var quantity := p.quantity + q;
      if quantity == 0.0 then book
      else
        var entry := Divide(p.entryPrice * (quantity - q) + trade.price * q, quantity);
        book[sym := Marked(p.(quantity := quantity, entryPrice := entry), close)]
    else
      var quantity := p.quantity - q;
      if quantity == 0.0 then book - {sym}
      else book[sym := Marked(p.(quantity := quantity), close)]
  }

  /** A fill touches only the traded symbol. */
  lemma FillFrame(book: map<string, SimPosition>, trade: Trade, close: real, s: string)
    requires !BuyFlattens(book, trade)
    requires s != trade.symbol
    ensures s in ApplyFill(book, trade, close) <==> s in book
    ensures s in book ==> ApplyFill(book, trade, close)[s] == book[s]
  {
  }

  /** A fill keeps the book well formed. */
  lemma FillPreservesBook(book: map<string, SimPosition>, trade: Trade, close: real)
    requires !BuyFlattens(book, trade)
    requires BookWellFormed(book)
    ensures BookWellFormed(ApplyFill(book, trade, close))
  {
  }

  /** A buy adds its quantity and re-averages the entry price by quantity:
      new entry times new quantity is old entry times old quantity plus the
      fill price times the fill quantity. A first buy of a symbol opens a long
      at the fill price. A buy of nothing on a new symbol stores nothing. */
  lemma BuyAveragesEntry(book: map<string, SimPosition>, trade: Trade, close: real)
    requires !BuyFlattens(book, trade)
    requires trade.kind == "buy"
    ensures var p := Prior(book, trade);
      var after := ApplyFill(book, trade, close);
      && (p.quantity + trade.quantity != 0.0 ==>
            && trade.symbol in after
            && after[trade.symbol].quantity == p.quantity + trade.quantity
            && after[trade.symbol].entryPrice * after[trade.symbol].quantity
               == p.entryPrice * p.quantity + trade.price * trade.quantity
            && after[trade.symbol].side == p.side
            && after[trade.symbol].currentPrice == close)
      && (trade.symbol !in book && trade.quantity != 0.0 ==>
            after[trade.symbol].side == Long && after[trade.symbol].entryPrice == trade.price)
      && (trade.symbol !in book && trade.quantity == 0.0 ==> after == book)
  {
    var p := Prior(book, trade);
    var after := ApplyFill(book, trade, close);
    var q := trade.quantity;
    if trade.symbol !in book && q != 0.0 {
      var e := after[trade.symbol].entryPrice;
      assert e * q == 0.0 * (q - q) + trade.price * q;
      CancelFactor(e, trade.price, q);
    }
  }

  /** A sell (any kind but 'buy') subtracts its quantity and keeps the entry
      price; the symbol leaves the book exactly when the quantity reaches
      zero. A sell with nothing held opens a short of minus the quantity at
      entry price 0. */
  lemma SellReducesQuantity(book: map<string, SimPosition>, trade: Trade, close: real)
    requires trade.kind != "buy"
    ensures var p := Prior(book, trade);
      var after := ApplyFill(book, trade, close);
      && (trade.symbol in after <==> p.quantity - trade.quantity != 0.0)
      && (trade.symbol in after ==>
            && after[trade.symbol].quantity == p.quantity - trade.quantity
            && after[trade.symbol].entryPrice == p.entryPrice
            && after[trade.symbol].side == p.side
            && after[trade.symbol].currentPrice == close)
      && (trade.symbol !in book && trade.quantity != 0.0 ==>
            after[trade.symbol] == SimPosition(trade.symbol, Short, -trade.quantity, 0.0, close,
                                               UnrealizedPnL(Short, -trade.quantity, 0.0, close)))
  {
  }

  /** updatePositions: every position marked to one tick's `close`. */
  function MarkAll(book: map<string, SimPosition>, close: real): (marked: map<string, SimPosition>)
    ensures marked.Keys == book.Keys
  {
    map s | s in book :: Marked(book[s], close)
  }

  /** Marking to market keeps the book well formed and changes only the
      current price and unrealized pnl of each position. */
  lemma MarkAllPreservesBook(book: map<string, SimPosition>, close: real)
    requires BookWellFormed(book)
    ensures BookWellFormed(MarkAll(book, close))
    ensures forall s :: s in book ==>
      && MarkAll(book, close)[s].currentPrice == close
      && MarkAll(book, close)[s].(currentPrice := book[s].currentPrice, unrealizedPnL := book[s].unrealizedPnL) == book[s]
  {
  }

  /** Capital paid for every logged trade, commission included. */
  function Spent(trades: seq<Trade>, commission: real): real
  {
    if |trades| == 0 then 0.0
    else
      var t := trades[|trades| - 1];
      Spent(trades[..|trades| - 1], commission) + Cost(t.price, t.quantity, commission)
  }

  lemma SpentAppend(trades: seq<Trade>, t: Trade, commission: real)
    ensures Spent(trades + [t], commission) == Spent(trades, commission) + Cost(t.price, t.quantity, commission)
  {
    assert (trades + [t])[..|trades|] == trades;
  }

  /** The pnl of every logged trade, in order. */
  function TradePnLs(trades: seq<Trade>): (ps: seq<real>)
    ensures |ps| == |trades|
    ensures forall i :: 0 <= i < |trades| ==> ps[i] == trades[i].pnl
  {
    seq(|trades|, i requires 0 <= i < |trades| => trades[i].pnl)
  }

  /** Sum of the unrealized pnl of the positions in a book. */
  ghost function UnrealizedTotal(book: map<string, SimPosition>): real
    decreases |book.Keys|
  {
    if book == map[] then 0.0
    else
      var s :| s in book;
      assert |(book - {s}).Keys| < |book.Keys| by {
        assert (book - {s}).Keys == book.Keys - {s};
      }
      book[s].unrealizedPnL + UnrealizedTotal(book - {s})
  }

  /** The sum may start from any position of the book. */
  lemma {:induction false} UnrealizedTotalFrom(book: map<string, SimPosition>, s: string)
    requires s in book
    ensures UnrealizedTotal(book) == book[s].unrealizedPnL + UnrealizedTotal(book - {s})
    decreases |book.Keys|
  {
    var t :| t in book && UnrealizedTotal(book) == book[t].unrealizedPnL + UnrealizedTotal(book - {t});
    if t != s {
      assert (book - {t}).Keys == book.Keys - {t};
      assert (book - {s}).Keys == book.Keys - {s};
      UnrealizedTotalFrom(book - {t}, s);
      UnrealizedTotalFrom(book - {s}, t);
      assert book - {t} - {s} == book - {s} - {t};
    }
  }

  class TradeSimulator {
    const options: Options
    var capital: real
    var positions: map<string, SimPosition>
    var trades: seq<Trade>
    /** Never read or written after construction. */
    var orders: seq<Order>

    /** Capital is the initial capital less what the logged trades cost,
        every logged trade carries pnl 0, and the book is well formed. */
    ghost predicate Valid()
      reads this
    {
      && capital == options.initialCapital - Spent(trades, options.commission)
      && (forall i :: 0 <= i < |trades| ==> trades[i].pnl == 0.0)
      && BookWellFormed(positions)
      && orders == []
    }

    constructor(overrides: OptionOverrides)
      ensures options == MergeOptions(overrides)
      ensures capital == options.initialCapital
      ensures positions == map[] && trades == [] && orders == []
      ensures Valid()
    {
      options := MergeOptions(overrides);
      capital := MergeOptions(overrides).initialCapital;
      positions := map[];
      trades := [];
      orders := [];
    }

    /** executeOrder. `id` stands for the `Date.now()`-based trade id. An
        order whose cost exceeds the capital is refused and changes nothing;
        an accepted one pays its cost, is logged with pnl 0 and is applied to
        the book. */
    method ExecuteOrder(market: MarketData, order: Order, id: string) returns (r: Result<Trade, string>)
      requires Valid()
      requires Cost(ExecutionPrice(order, options.slippage), order.quantity, options.commission) <= capital ==>
        !(order.kind == "buy" && order.symbol in positions && positions[order.symbol].quantity + order.quantity == 0.0)
      modifies this
      ensures Valid()
      ensures orders == old(orders)
      ensures Cost(ExecutionPrice(order, options.slippage), order.quantity, options.commission) > old(capital) ==>
        && r == Failure("Insufficient capital")
        && capital == old(capital) && positions == old(positions) && trades == old(trades)
      ensures Cost(ExecutionPrice(order, options.slippage), order.quantity, options.commission) <= old(capital) ==>
        && r == Success(Trade(id, market.timestamp, order.symbol, order.kind,
                              ExecutionPrice(order, options.slippage), order.quantity, 0.0))
        && capital == old(capital) - Cost(ExecutionPrice(order, options.slippage), order.quantity, options.commission)
        && capital >= 0.0
        && trades == old(trades) + [r.value]
        && positions == ApplyFill(old(positions), r.value, market.close)
    {
      var exec := ExecutionPrice(order, options.slippage);
      var cost := Cost(exec, order.quantity, options.commission);
      if cost > capital {
        r := Failure("Insufficient capital");
      } else {
        var trade := Trade(id, market.timestamp, order.symbol, order.kind, exec, order.quantity, 0.0);
        Settle(market, trade);
        r := Success(trade);
      }
    }

    /** The accepted half of executeOrder: pays for the trade, logs it and
        applies it to the book. */
    method Settle(market: MarketData, trade: Trade)
      requires Valid()
      requires trade.pnl == 0.0
      requires Cost(trade.price, trade.quantity, options.commission) <= capital
      requires !BuyFlattens(positions, trade)
      modifies this
      ensures Valid()
      ensures capital == old(capital) - Cost(trade.price, trade.quantity, options.commission)
      ensures capital >= 0.0
      ensures trades == old(trades) + [trade]
      ensures positions == ApplyFill(old(positions), trade, market.close)
      ensures orders == old(orders)
    {
      SpentAppend(trades, trade, options.commission);
      capital := capital - Cost(trade.price, trade.quantity, options.commission);
      trades := trades + [trade];
      assert forall i :: 0 <= i < |trades| ==> trades[i].pnl == 0.0;
      UpdatePosition(market, trade);
    }

    /** updatePosition: applies one logged trade to the book. */
    method UpdatePosition(market: MarketData, trade: Trade)
      requires BookWellFormed(positions)
      requires !BuyFlattens(positions, trade)
      modifies this`positions
      ensures positions == ApplyFill(old(positions), trade, market.close)
      ensures BookWellFormed(positions)
    {
      FillPreservesBook(positions, trade, market.close);
      positions := ApplyFill(positions, trade, market.close);
    }

    /** updatePositions: marks every open position to the tick's close,
        one symbol at a time. */
    method UpdatePositions(market: MarketData)
      requires Valid()
      modifies this`positions
      ensures positions == MarkAll(old(positions), market.close)
      ensures Valid()
    {
      var todo := positions.Keys;
      while todo != {}
        invariant todo <= positions.Keys
        invariant positions.Keys == old(positions).Keys
        invariant forall s :: s in positions ==>
          positions[s] == if s in todo then old(positions)[s] else Marked(old(positions)[s], market.close)
        decreases |todo|
      {
        var s :| s in todo;
        positions := positions[s := Marked(positions[s], market.close)];
        todo := todo - {s};
      }
      assert positions == MarkAll(old(positions), market.close);
      MarkAllPreservesBook(old(positions), market.close);
    }

    /** getPositions: every stored position once (in an unspecified order). */
    method GetPositions() returns (ps: seq<SimPosition>)
      requires Valid()
      ensures |ps| == |positions.Keys|
      ensures forall s :: s in positions ==> positions[s] in ps
      ensures forall i :: 0 <= i < |ps| ==> ps[i].symbol in positions && positions[ps[i].symbol] == ps[i]
    {
      ps := [];
      var todo := positions.Keys;
      while todo != {}
        invariant todo <= positions.Keys
        invariant |ps| + |todo| == |positions.Keys|
        invariant forall s :: s in positions ==> (s in todo <==> positions[s] !in ps)
        invariant forall i :: 0 <= i < |ps| ==> ps[i].symbol in positions && positions[ps[i].symbol] == ps[i]
        decreases |todo|
      {
        var s :| s in todo;
        ps := ps + [positions[s]];
        todo := todo - {s};
      }
    }

    method GetTrades() returns (ts: seq<Trade>)
      ensures ts == trades
    {
      ts := trades;
    }

    method GetCapital() returns (c: real)
      ensures c == capital
    {
      c := capital;
    }

    /** getTotalPnL: realized plus unrealized pnl. Every logged trade has pnl
        0, so the total is the book's unrealized pnl. */
    method GetTotalPnL() returns (total: real)
      requires Valid()
      ensures total == Sum(TradePnLs(trades)) + UnrealizedTotal(positions)
      ensures total == UnrealizedTotal(positions)
    {
      var realized := 0.0;
      for i := 0 to |trades|
        invariant realized == Sum(TradePnLs(trades)[..i])
      {
        assert TradePnLs(trades)[..i + 1] == TradePnLs(trades)[..i] + [trades[i].pnl];
        SumAppendOne(TradePnLs(trades)[..i], trades[i].pnl);
        realized := realized + trades[i].pnl;
      }
      assert TradePnLs(trades)[..|trades|] == TradePnLs(trades);
      SumOfConstant(TradePnLs(trades), 0.0);
      var unrealized := 0.0;
      var rest := positions;
      while rest != map[]
        invariant rest.Keys <= positions.Keys
        invariant forall s :: s in rest ==> rest[s] == positions[s]
        invariant unrealized + UnrealizedTotal(rest) == UnrealizedTotal(positions)
        decreases |rest.Keys|
      {
        var s :| s in rest;
        UnrealizedTotalFrom(rest, s);
        unrealized := unrealized + rest[s].unrealizedPnL;
        assert (rest - {s}).Keys == rest.Keys - {s};
        rest := rest - {s};
      }
      total := realized + unrealized;
    }
  }
}
