/** The records a backtest passes between the simulator and the metrics
    (backend/src/types/backtest.js). */
module BacktestTypes {

  /** One executed fill. `kind` is the source's `type` field ('buy' or 'sell'). */
  datatype Trade = Trade(
    id: string,
    timestamp: string,
    symbol: string,
    kind: string,
    price: real,
    quantity: real,
    pnl: real)

  /** One day of the equity curve. */
  datatype EquityPoint = EquityPoint(
    date: string,
    equity: real,
    periodReturn: real,  // the source's `returns`
    drawdown: real,
    peak: real,
    trough: real)

  /** An equity point without its equity and return. */
  datatype DrawdownPoint = DrawdownPoint(
    date: string,
    drawdown: real,
    peak: real,
    trough: real)
}
