/** The live trading engine: it turns strategy signals into orders, asks the
    risk service to approve them, keeps one position per symbol, re-prices
    positions and closes the ones the risk service no longer accepts. The
    'orderExecuted' and 'positionClosed' events are not modelled. */
module Engine {
  import opened Values
  import opened Numeric
  import opened TradingTypes
  import opened RiskManagement

  /** The order processSignal builds: the signal's four fields, copied. */
  function OrderOf(signal: TradeSignal): (order: Order)
    ensures order.symbol == signal.symbol && order.kind == signal.kind
    ensures order.price == signal.price && order.quantity == signal.quantity
  {
    Order(signal.symbol, signal.kind, signal.price, signal.quantity)
  }

  /** `positions.get(symbol)`. */
  function Held(book: map<string, Position>, symbol: string): (r: Option<Position>)
    ensures r.Some? <==> symbol in book
    ensures r.Some? ==> r.value == book[symbol]
  {
    if symbol in book then Some(book[symbol]) else None
  }

  /** The position the first order on a symbol opens. */
  function Opened(order: Order): Position
  {
    Position(order.symbol, order.kind, order.quantity, order.price, order.price, 0.0)
  }

  /** executeOrder divides by the increased quantity plus the order's quantity
      when adding to a position of the same type; that divisor must not be 0. */
  predicate FillDefined(book: map<string, Position>, order: Order)
  {
    order.symbol in book && book[order.symbol].kind == order.kind ==>
      book[order.symbol].quantity + 2.0 * order.quantity != 0.0
  }

  /** The entry price after adding `order` to a same-type position. The held
      quantity is increased first and the increased value is then used both
      as the weight of the old entry price and inside the divisor. */
  function AveragedEntry(p: Position, order: Order): real
    requires p.quantity + 2.0 * order.quantity != 0.0
  {
    var quantity := p.quantity + order.quantity;
    Divide(p.entryPrice * quantity + order.price * order.quantity, quantity + order.quantity)
  }

  /** The quantity-weighted average of two fills: the reference the averaged
      entry price is compared with. */
  function WeightedEntry(entryPrice: real, quantity: real, price: real, added: real): (w: real)
    requires quantity + added != 0.0
    ensures w * (quantity + added) == entryPrice * quantity + price * added
  {
    Divide(entryPrice * quantity + price * added, quantity + added)
  }

  /** executeOrder on the book: open, add to, reduce or remove the position
      of the order's symbol; no other symbol changes. */
  function Fill(book: map<string, Position>, order: Order): (r: map<string, Position>)
    requires FillDefined(book, order)
    ensures order.symbol in r <==>
      (order.symbol !in book || book[order.symbol].kind == order.kind ||
       book[order.symbol].quantity != order.quantity)
    ensures forall s :: s != order.symbol ==> (s in r <==> s in book)
    ensures forall s :: s != order.symbol && s in book ==> r[s] == book[s]
    ensures Keyed(book) ==> Keyed(r)
  {
    if order.symbol !in book then book[order.symbol := Opened(order)]
    else
      var p := book[order.symbol];
      if p.kind == order.kind then
        book[order.symbol := p.(quantity := p.quantity + order.quantity, entryPrice := AveragedEntry(p, order))]
      else if p.quantity - order.quantity == 0.0 then book - {order.symbol}
      else book[order.symbol := p.(quantity := p.quantity - order.quantity)]
  }

  /** The first order on a symbol opens a position at the order's price with no
      unrealized result. */
  lemma FillOpens(book: map<string, Position>, order: Order)
    requires order.symbol !in book
    ensures order.symbol in Fill(book, order)
    ensures Fill(book, order)[order.symbol] == Opened(order)
    ensures Opened(order).entryPrice == Opened(order).currentPrice == order.price
    ensures Opened(order).unrealizedPnL == 0.0
  {
  }

  /** A same-type order adds its quantity; the new entry price satisfies
      `entry' * (Q + 2q) == entry * (Q + q) + price * q` for held quantity `Q`
      and order quantity `q`. Current price and unrealized result are left as
      they were. */
  lemma FillAdds(book: map<string, Position>, order: Order)
    requires order.symbol in book && book[order.symbol].kind == order.kind
    requires FillDefined(book, order)
    ensures var p := book[order.symbol];
      var p' := Fill(book, order)[order.symbol];
      && p'.quantity == p.quantity + order.quantity
      && p'.entryPrice * (p.quantity + 2.0 * order.quantity)
         == p.entryPrice * (p.quantity + order.quantity) + order.price * order.quantity
      && p'.(quantity := p.quantity, entryPrice := p.entryPrice) == p
  {
    var p := book[order.symbol];
    var e := AveragedEntry(p, order);
    assert e * ((p.quantity + order.quantity) + order.quantity)
      == p.entryPrice * (p.quantity + order.quantity) + order.price * order.quantity;
  }

  /** An order of another type reduces the held quantity; reaching exactly 0
      removes the position, otherwise only the quantity changes (the entry
      price is kept). */
  lemma FillReduces(book: map<string, Position>, order: Order)
    requires order.symbol in book && book[order.symbol].kind != order.kind
    ensures var p := book[order.symbol];
      p.quantity == order.quantity ==> Fill(book, order) == book - {order.symbol}
    ensures var p := book[order.symbol];
      p.quantity != order.quantity ==>
        Fill(book, order)[order.symbol] == p.(quantity := p.quantity - order.quantity)
  {
  }

  /** Adding to a position moves its entry price to the quantity-weighted
      average of the two fills only when the order adds nothing or is priced
      at the old entry price: in every other case the averaged entry price
      differs from the weighted average. */
  lemma AveragedEntryIsWeightedOnlyWhenPricesAgree(p: Position, order: Order)
    requires p.quantity + order.quantity != 0.0
    requires p.quantity + 2.0 * order.quantity != 0.0
    ensures AveragedEntry(p, order) == WeightedEntry(p.entryPrice, p.quantity, order.price, order.quantity)
      <==> order.quantity == 0.0 || order.price == p.entryPrice
  {
    var q := order.quantity;
    var held := p.quantity;
    var e := p.entryPrice;
    var a := AveragedEntry(p, order);
    var w := WeightedEntry(e, held, order.price, q);
    assert a * (held + 2.0 * q) == e * (held + q) + order.price * q;
    if order.price == e {
      assert a * (held + 2.0 * q) == e * (held + 2.0 * q);
      CancelFactor(a, e, held + 2.0 * q);
      assert w * (held + q) == e * (held + q);
      CancelFactor(w, e, held + q);
    }
    if q == 0.0 {
      assert a * held == e * held;
      CancelFactor(a, e, held);
      assert w * held == e * held;
      CancelFactor(w, e, held);
    }
    if a == w && q != 0.0 {
      AgreementNeedsEqualPrices(p, order);
    }
  }

  /** The step of the lemma above that needs the two equations together:
      when the two entry prices agree for a non-zero order, subtracting the
      equations leaves `a * q == entry * q`, so both equal the old entry
      price, and then the order's price equals it too. */
  lemma AgreementNeedsEqualPrices(p: Position, order: Order)
    requires p.quantity + order.quantity != 0.0
    requires p.quantity + 2.0 * order.quantity != 0.0
    requires order.quantity != 0.0
    requires AveragedEntry(p, order) == WeightedEntry(p.entryPrice, p.quantity, order.price, order.quantity)
    ensures order.price == p.entryPrice
  {
    var q := order.quantity;
    var held := p.quantity;
    var e := p.entryPrice;
    var a := AveragedEntry(p, order);
    assert a * (held + q + q) == e * (held + q) + order.price * q;
    assert a * (held + q) == e * held + order.price * q;
    EqualPricesFromAgreement(a, e, order.price, held, q);
  }

  /** The same step on the numbers alone: subtracting the second equation
      from the first leaves `a * q == e * q`, so `a == e`, and then the
      second reads `e * q == price * q`. */
  lemma EqualPricesFromAgreement(a: real, e: real, price: real, held: real, q: real)
    requires q != 0.0
    requires a * (held + q + q) == e * (held + q) + price * q
    requires a * (held + q) == e * held + price * q
    ensures price == e
  {
    Distribute(a, held + q, q);
    Distribute(e, held, q);
    assert a * q == e * q;
    CancelFactor(a, e, q);
    assert e * q == price * q;
    CancelFactor(e, price, q);
  }

  /** Re-pricing a position: the current price and the unrealized result.
      Every type other than 'LONG' is marked as a short position. */
  function UnrealizedPnL(p: Position, price: real): real
  {
    if p.kind == "LONG" then (price - p.entryPrice) * p.quantity
    else (p.entryPrice - price) * p.quantity
  }

  function Mark(p: Position, price: real): (m: Position)
    ensures m.currentPrice == price && m.unrealizedPnL == UnrealizedPnL(p, price)
    ensures m.(currentPrice := p.currentPrice, unrealizedPnL := p.unrealizedPnL) == p
  {
    p.(currentPrice := price, unrealizedPnL := UnrealizedPnL(p, price))
  }

  /** A 'LONG' position of positive size gains exactly when the price rises
      above the entry price; a position of any other type gains exactly when
      it falls below it. */
  lemma UnrealizedPnLSign(p: Position, price: real)
    requires p.quantity > 0.0
    ensures p.kind == "LONG" ==> (UnrealizedPnL(p, price) > 0.0 <==> price > p.entryPrice)
    ensures p.kind != "LONG" ==> (UnrealizedPnL(p, price) > 0.0 <==> price < p.entryPrice)
    ensures UnrealizedPnL(p, p.entryPrice) == 0.0
  {
    if p.kind == "LONG" {
      if price > p.entryPrice {
        assert (price - p.entryPrice) * p.quantity > 0.0;
      } else {
        assert (p.entryPrice - price) * p.quantity >= 0.0;
      }
    } else {
      if price < p.entryPrice {
        assert (p.entryPrice - price) * p.quantity > 0.0;
      } else {
        assert (price - p.entryPrice) * p.quantity >= 0.0;
      }
    }
  }

  /** The order closePosition sends: 'SELL' for a 'LONG' position, 'BUY' for
      any other, for the whole quantity at the current price. */
  function CloseOrder(p: Position): (order: Order)
    ensures order.symbol == p.symbol && order.quantity == p.quantity && order.price == p.currentPrice
    ensures order.kind == (if p.kind == "LONG" then "SELL" else "BUY")
    ensures order.kind == p.kind <==> p.kind == "BUY"
  {
    Order(p.symbol, if p.kind == "LONG" then "SELL" else "BUY", p.currentPrice, p.quantity)
  }

  /** Closing a 'BUY' position adds to it, which needs a non-zero quantity. */
  predicate Closable(p: Position)
  {
    p.kind == "BUY" ==> p.quantity != 0.0
  }

  /** What closing a stored position does: every position not of type 'BUY'
      is removed; a 'BUY' position has the same type as the closing 'BUY'
      order, so it is doubled instead, its entry price moving to
      `(2 * entry + current) / 3`. */
  lemma ClosingOutcome(book: map<string, Position>, p: Position)
    requires p.symbol in book && book[p.symbol] == p
    requires Closable(p)
    ensures FillDefined(book, CloseOrder(p))
    ensures p.kind != "BUY" ==> Fill(book, CloseOrder(p)) == book - {p.symbol}
    ensures p.kind == "BUY" ==>
      && p.symbol in Fill(book, CloseOrder(p))
      && Fill(book, CloseOrder(p))[p.symbol].quantity == 2.0 * p.quantity
      && Fill(book, CloseOrder(p))[p.symbol].entryPrice * 3.0 == 2.0 * p.entryPrice + p.currentPrice
  {
    if p.kind == "BUY" {
      var order := CloseOrder(p);
      FillAdds(book, order);
      var e' := Fill(book, order)[p.symbol].entryPrice;
      assert e' * (3.0 * p.quantity) == p.entryPrice * (2.0 * p.quantity) + p.currentPrice * p.quantity;
      assert (e' * 3.0) * p.quantity == (2.0 * p.entryPrice + p.currentPrice) * p.quantity;
      CancelFactor(e' * 3.0, 2.0 * p.entryPrice + p.currentPrice, p.quantity);
    } else {
      FillReduces(book, CloseOrder(p));
    }
  }

  /** updatePositionPrice on the book: a symbol without a position is
      ignored; otherwise the position is re-priced, and closed when the risk
      service rejects it at the new price. */
  function Repriced(book: map<string, Position>, symbol: string, price: real, config: RiskConfig): map<string, Position>
    requires Keyed(book)
    requires symbol in book && PositionVerdict(config, Mark(book[symbol], price)) != Approved ==> Closable(book[symbol])
  {
    if symbol !in book then book
    else
      var m := Mark(book[symbol], price);
      var marked := book[symbol := m];
      if PositionVerdict(config, m) == Approved then marked
      else
        ClosingOutcome(marked, m);
        Fill(marked, CloseOrder(m))
  }

  /** After a re-pricing, the position of the symbol is either kept at the new
      price (the risk service accepts it), or gone (it was rejected), or, for
      a rejected 'BUY' position, doubled. No other position changes. */
  lemma RepricedOutcome(book: map<string, Position>, symbol: string, price: real, config: RiskConfig)
    requires Keyed(book)
    requires symbol in book && PositionVerdict(config, Mark(book[symbol], price)) != Approved ==> Closable(book[symbol])
    ensures Keyed(Repriced(book, symbol, price, config))
    ensures symbol !in book ==> Repriced(book, symbol, price, config) == book
    ensures symbol in book && PositionVerdict(config, Mark(book[symbol], price)) == Approved ==>
      Repriced(book, symbol, price, config) == book[symbol := Mark(book[symbol], price)]
    ensures (symbol in book && PositionVerdict(config, Mark(book[symbol], price)) != Approved
      && book[symbol].kind != "BUY") ==>
      Repriced(book, symbol, price, config) == book - {symbol}
    ensures (symbol in book && PositionVerdict(config, Mark(book[symbol], price)) != Approved
      && book[symbol].kind == "BUY") ==>
      && symbol in Repriced(book, symbol, price, config)
      && Repriced(book, symbol, price, config)[symbol].quantity == 2.0 * book[symbol].quantity
    ensures forall s :: s != symbol ==>
      (s in Repriced(book, symbol, price, config) <==> s in book)
    ensures forall s :: s != symbol && s in book ==> Repriced(book, symbol, price, config)[s] == book[s]
  {
    if symbol in book && PositionVerdict(config, Mark(book[symbol], price)) != Approved {
      var m := Mark(book[symbol], price);
      ClosingOutcome(book[symbol := m], m);
    }
  }

  class TradingEngine {
    const risk: RiskManagementService
    var positions: map<string, Position>

    constructor(risk: RiskManagementService)
      ensures this.risk == risk
      ensures positions == map[]
    {
      this.risk := risk;
      positions := map[];
    }

    /** processSignal: the order built from the signal is executed exactly
        when the risk service approves it; a thrown validation error is the
        `Failure` and changes nothing. */
    method ProcessSignal(signal: TradeSignal) returns (r: Result<Verdict, string>)
      requires Keyed(positions)
      requires OrderVerdict(risk.config, Held(positions, signal.symbol), OrderOf(signal)) == Success(Approved) ==>
        FillDefined(positions, OrderOf(signal))
      modifies this`positions
      ensures r == OrderVerdict(risk.config, Held(old(positions), signal.symbol), OrderOf(signal))
      ensures r == Success(Approved) ==> positions == Fill(old(positions), OrderOf(signal))
      ensures r != Success(Approved) ==> positions == old(positions)
      ensures Keyed(positions)
    {
      var position := if signal.symbol in positions then Some(positions[signal.symbol]) else None;
      var order := Order(signal.symbol, signal.kind, signal.price, signal.quantity);
      r := risk.ValidateOrder(position, order);
      if r == Success(Approved) {
        ExecuteOrder(order);
      }
    }

    method ExecuteOrder(order: Order)
      requires Keyed(positions)
      requires FillDefined(positions, order)
      modifies this`positions
      ensures positions == Fill(old(positions), order)
      ensures Keyed(positions)
    {
      if order.symbol !in positions {
        positions := positions[order.symbol := Position(order.symbol, order.kind, order.quantity, order.price, order.price, 0.0)];
      } else {
        var position := positions[order.symbol];
        if position.kind == order.kind {
          var quantity := position.quantity + order.quantity;
          var entryPrice := (position.entryPrice * quantity + order.price * order.quantity) / (quantity + order.quantity);
          assert entryPrice == AveragedEntry(position, order);
          positions := positions[order.symbol := position.(quantity := quantity, entryPrice := entryPrice)];
        } else {
          var quantity := position.quantity - order.quantity;
          if quantity == 0.0 {
            positions := positions - {order.symbol};
          } else {
            positions := positions[order.symbol := position.(quantity := quantity)];
          }
        }
      }
    }

    method UpdatePositionPrice(symbol: string, price: real)
      requires Keyed(positions)
      requires symbol in positions && PositionVerdict(risk.config, Mark(positions[symbol], price)) != Approved ==>
        Closable(positions[symbol])
      modifies this`positions
      ensures positions == Repriced(old(positions), symbol, price, risk.config)
      ensures Keyed(positions)
    {
      if symbol in positions {
        var position := positions[symbol];
        position := position.(currentPrice := price);
        position := position.(unrealizedPnL :=
          if position.kind == "LONG" then (price - position.entryPrice) * position.quantity
          else (position.entryPrice - price) * position.quantity);
        assert position == Mark(old(positions)[symbol], price);
        positions := positions[symbol := position];
        var verdict := risk.ValidatePosition(position);
        if verdict != Approved {
          ClosingOutcome(positions, position);
          ClosePosition(position);
        }
      }
      RepricedOutcome(old(positions), symbol, price, risk.config);
    }

    method ClosePosition(position: Position)
      requires Keyed(positions)
      requires FillDefined(positions, CloseOrder(position))
      modifies this`positions
      ensures positions == Fill(old(positions), CloseOrder(position))
      ensures Keyed(positions)
    {
      var order := Order(position.symbol, if position.kind == "LONG" then "SELL" else "BUY",
        position.currentPrice, position.quantity);
      ExecuteOrder(order);
    }

    method GetPositions() returns (ps: seq<Position>)
      requires Keyed(positions)
      ensures Listing(positions, ps)
    {
      ps := [];
      var todo := positions.Keys;
      while todo != {}
        invariant todo <= positions.Keys
        invariant |ps| + |todo| == |positions.Keys|
        invariant forall s :: s in positions ==> (s in todo <==> positions[s] !in ps)
        invariant forall i :: 0 <= i < |ps| ==> ps[i].symbol in positions && positions[ps[i].symbol] == ps[i]
        decreases |todo|
      {
        var s :| s in todo;
        ps := ps + [positions[s]];
        todo := todo - {s};
      }
    }

    method GetPosition(symbol: string) returns (r: Option<Position>)
      ensures r == Held(positions, symbol)
    {
      r := if symbol in positions then Some(positions[symbol]) else None;
    }
  }
}
