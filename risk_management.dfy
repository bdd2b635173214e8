/** The live risk service: it approves or rejects an order against the
    configured position-size limit and stop-loss / take-profit band, judges an
    open position against the drawdown limit, and keeps its own book of
    positions. The 'riskViolation' event it emits on a rejection is modelled
    as the violation carried by the verdict. */
module RiskManagement {
  import opened Values
  import opened Numeric
  import opened TradingTypes

  /** The `type` of the emitted 'riskViolation' event. */
  datatype RiskViolation = PositionSize | StopLoss | TakeProfit | Drawdown

  datatype Verdict = Approved | Rejected(violation: RiskViolation)

  /** The size the position would reach: the held quantity plus the order's,
      or just the order's when nothing is held. */
  function NewPositionSize(position: Option<Position>, order: Order): real
  {
    if position.Some? then position.value.quantity + order.quantity else order.quantity
  }

  /** Lowest sell price the stop-loss rule lets through. */
  function StopLossPrice(config: RiskConfig, entryPrice: real): real
  {
    entryPrice * (1.0 - config.stopLoss)
  }

  /** Highest sell price the take-profit rule lets through. */
  function TakeProfitPrice(config: RiskConfig, entryPrice: real): real
  {
    entryPrice * (1.0 + config.takeProfit)
  }

  predicate WithinBand(config: RiskConfig, entryPrice: real, price: real)
  {
    StopLossPrice(config, entryPrice) <= price <= TakeProfitPrice(config, entryPrice)
  }

  /** The outcome of `validateOrder`. The checks run in order: size, stop
      loss, take profit. A 'SELL' order within the size limit but without a
      held position reads `entryPrice` of `undefined` and throws: that is the
      `Failure`. */
  function OrderVerdict(config: RiskConfig, position: Option<Position>, order: Order): (r: Result<Verdict, string>)
    ensures r == Success(Rejected(PositionSize)) <==> NewPositionSize(position, order) > config.maxPositionSize
    ensures r.Failure? <==>
      NewPositionSize(position, order) <= config.maxPositionSize && order.kind == "SELL" && position.None?
    ensures r == Success(Rejected(StopLoss)) <==>
      && NewPositionSize(position, order) <= config.maxPositionSize
      && order.kind == "SELL" && position.Some?
      && order.price < StopLossPrice(config, position.value.entryPrice)
    ensures r == Success(Rejected(TakeProfit)) <==>
      && NewPositionSize(position, order) <= config.maxPositionSize
      && order.kind == "SELL" && position.Some?
      && StopLossPrice(config, position.value.entryPrice) <= order.price
      && order.price > TakeProfitPrice(config, position.value.entryPrice)
    ensures r == Success(Approved) <==>
      && NewPositionSize(position, order) <= config.maxPositionSize
      && (order.kind == "SELL" ==> position.Some? && WithinBand(config, position.value.entryPrice, order.price))
    ensures r.Success? ==> r.value != Rejected(Drawdown)
  {
    if NewPositionSize(position, order) > config.maxPositionSize then Success(Rejected(PositionSize))
    else if order.kind != "SELL" then Success(Approved)
    else if position.None? then Failure("TypeError: Cannot read properties of undefined (reading 'entryPrice')")
    else if order.price < StopLossPrice(config, position.value.entryPrice) then Success(Rejected(StopLoss))
    else if order.price > TakeProfitPrice(config, position.value.entryPrice) then Success(Rejected(TakeProfit))
    else Success(Approved)
  }

  /** An approved sale loses at most the stop-loss fraction of the entry price
      and gains at most the take-profit fraction of it. */
  lemma ApprovedSaleWithinBand(config: RiskConfig, position: Position, order: Order)
    requires order.kind == "SELL"
    requires OrderVerdict(config, Some(position), order) == Success(Approved)
    ensures position.entryPrice - order.price <= position.entryPrice * config.stopLoss
    ensures order.price - position.entryPrice <= position.entryPrice * config.takeProfit
  {
    var e := position.entryPrice;
    assert e * (1.0 - config.stopLoss) == e - e * config.stopLoss;
    assert e * (1.0 + config.takeProfit) == e + e * config.takeProfit;
  }

  /** With a positive entry price and non-negative limits, a sale at the entry
      price itself is inside the band. */
  lemma EntryPriceInsideBand(config: RiskConfig, entryPrice: real)
    requires entryPrice > 0.0 && config.stopLoss >= 0.0 && config.takeProfit >= 0.0
    ensures WithinBand(config, entryPrice, entryPrice)
  {
    assert entryPrice * (1.0 - config.stopLoss) == entryPrice - entryPrice * config.stopLoss;
    assert entryPrice * config.stopLoss >= 0.0;
    assert entryPrice * (1.0 + config.takeProfit) == entryPrice + entryPrice * config.takeProfit;
    assert entryPrice * config.takeProfit >= 0.0;
  }

  /** The outcome of `validatePosition`: rejected when the drawdown
      `(entryPrice - currentPrice) / entryPrice` exceeds the limit. With a zero
      entry price the quotient is -Infinity, NaN or +Infinity as the current
      price is positive, zero or negative, and only +Infinity exceeds a finite
      limit. */
  function PositionVerdict(config: RiskConfig, position: Position): (v: Verdict)
    ensures v == Approved || v == Rejected(Drawdown)
  {
    if position.entryPrice != 0.0 then
      if Divide(position.entryPrice - position.currentPrice, position.entryPrice) > config.maxDrawdown
      then Rejected(Drawdown) else Approved
    else if position.currentPrice < 0.0 then Rejected(Drawdown)
    else Approved
  }

  /** The drawdown rule as a price threshold: a position bought at a positive
      price is kept exactly while the current price stays at or above
      `entryPrice * (1 - maxDrawdown)`. */
  lemma DrawdownThreshold(config: RiskConfig, position: Position)
    ensures position.entryPrice > 0.0 ==>
      (PositionVerdict(config, position) == Approved <==>
       position.currentPrice >= position.entryPrice * (1.0 - config.maxDrawdown))
    ensures position.entryPrice < 0.0 ==>
      (PositionVerdict(config, position) == Approved <==>
       position.currentPrice <= position.entryPrice * (1.0 - config.maxDrawdown))
    ensures position.entryPrice == 0.0 ==>
      (PositionVerdict(config, position) == Approved <==> position.currentPrice >= 0.0)
  {
    var e := position.entryPrice;
    var c := position.currentPrice;
    var m := config.maxDrawdown;
    if e != 0.0 {
      var d := Divide(e - c, e);
      assert d * e == e - c;
      assert e * (1.0 - m) == e - m * e;
      if e > 0.0 {
        assert d > m <==> d * e > m * e;
      } else {
        assert d > m <==> d * e < m * e;
      }
    }
  }

  /** A position whose price has not moved is kept whenever the limit is not negative. */
  lemma UnmovedPositionKept(config: RiskConfig, position: Position)
    requires config.maxDrawdown >= 0.0
    requires position.currentPrice == position.entryPrice
    ensures PositionVerdict(config, position) == Approved
  {
    if position.entryPrice != 0.0 {
      var d := Divide(position.entryPrice - position.currentPrice, position.entryPrice);
      assert d * position.entryPrice == 0.0;
    }
  }

  class RiskManagementService {
    const config: RiskConfig
    var positions: map<string, Position>

    constructor(config: RiskConfig)
      ensures this.config == config
      ensures positions == map[]
    {
      this.config := config;
      positions := map[];
    }

    /** validateOrder, with its early returns. */
    method ValidateOrder(position: Option<Position>, order: Order) returns (r: Result<Verdict, string>)
      ensures r == OrderVerdict(config, position, order)
    {
      var newPositionSize := order.quantity;
      if position.Some? {
        newPositionSize := position.value.quantity + order.quantity;
      }
      if newPositionSize > config.maxPositionSize {
        return Success(Rejected(PositionSize));
      }
      if order.kind == "SELL" {
        if position.None? {
          return Failure("TypeError: Cannot read properties of undefined (reading 'entryPrice')");
        }
        if order.price < StopLossPrice(config, position.value.entryPrice) {
          return Success(Rejected(StopLoss));
        }
        if order.price > TakeProfitPrice(config, position.value.entryPrice) {
          return Success(Rejected(TakeProfit));
        }
      }
      return Success(Approved);
    }

    method ValidatePosition(position: Position) returns (v: Verdict)
      ensures v == PositionVerdict(config, position)
    {
      if position.entryPrice == 0.0 {
        v := if position.currentPrice < 0.0 then Rejected(Drawdown) else Approved;
        return;
      }
      var drawdown := (position.entryPrice - position.currentPrice) / position.entryPrice;
      if drawdown > config.maxDrawdown {
        return Rejected(Drawdown);
      }
      return Approved;
    }

    method UpdatePosition(position: Position)
      requires Keyed(positions)
      modifies this`positions
      ensures positions == old(positions)[position.symbol := position]
      ensures Keyed(positions)
    {
      positions := positions[position.symbol := position];
    }

    method RemovePosition(symbol: string)
      requires Keyed(positions)
      modifies this`positions
      ensures positions == old(positions) - {symbol}
      ensures Keyed(positions)
    {
      positions := positions - {symbol};
    }

    method GetPositions() returns (ps: seq<Position>)
      requires Keyed(positions)
      ensures Listing(positions, ps)
    {
      ps := [];
      var todo := positions.Keys;
      while todo != {}
        invariant todo <= positions.Keys
        invariant |ps| + |todo| == |positions.Keys|
        invariant forall s :: s in positions ==> (s in todo <==> positions[s] !in ps)
        invariant forall i :: 0 <= i < |ps| ==> ps[i].symbol in positions && positions[ps[i].symbol] == ps[i]
        decreases |todo|
      {
        var s :| s in todo;
        ps := ps + [positions[s]];
        todo := todo - {s};
      }
    }

    method GetPosition(symbol: string) returns (r: Option<Position>)
      ensures symbol in positions <==> r.Some?
      ensures r.Some? ==> r.value == positions[symbol]
    {
      r := if symbol in positions then Some(positions[symbol]) else None;
    }
  }
}
