/** The records the live trading engine and its risk service exchange
    (the `Position`, `Order`, `TradeSignal` and `RiskConfig` typedefs). */
module TradingTypes {

  /** An open position. `kind` is the source's free-form `type` string:
      whatever the order that opened it carried ('MARKET', 'BUY', 'LONG', ...). */
  datatype Position = Position(
    symbol: string,
    kind: string,
    quantity: real,
    entryPrice: real,
    currentPrice: real,
    unrealizedPnL: real)

  datatype Order = Order(
    symbol: string,
    kind: string,
    price: real,
    quantity: real)

  /** A strategy's signal; the engine copies these four fields into an order. */
  datatype TradeSignal = TradeSignal(
    symbol: string,
    kind: string,
    price: real,
    quantity: real)

  datatype RiskConfig = RiskConfig(
    maxPositionSize: real,
    maxDrawdown: real,
    stopLoss: real,
    takeProfit: real)

  /** A book of positions stores each one under its own symbol. */
  predicate Keyed(book: map<string, Position>)
  {
    forall s :: s in book ==> book[s].symbol == s
  }

  /** Every stored position exactly once, in some order (`Array.from(map.values())`). */
  predicate Listing(book: map<string, Position>, ps: seq<Position>)
  {
    && |ps| == |book.Keys|
    && (forall s :: s in book ==> book[s] in ps)
    && (forall i :: 0 <= i < |ps| ==> ps[i].symbol in book && book[ps[i].symbol] == ps[i])
  }
}
