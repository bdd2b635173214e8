/** The trade controller: creating a trade (with its risk/reward ratio),
    building the queries of the trade listing and of the statistics,
    updating a trade's status and exit price, and aggregating statistics over
    closed trades. The database is reduced to the outcome of a lookup, passed
    in, and to the records a query selects. */
module TradeController {
  import opened Values
  import opened Numeric
  import opened TradeModel

  /** An HTTP status code with either the JSON document sent or the `message`
      of an error response. */
  datatype Response<T> = Response(status: nat, body: Result<T, string>)

  /** `Math.abs(takeProfit - entryPrice) / Math.abs(entryPrice - stopLoss)`,
      computed only when both levels are truthy. An absent entry price makes
      the arithmetic NaN. */
  function RiskReward(entryPrice: Option<real>, stopLoss: Option<real>, takeProfit: Option<real>): (r: Option<JsNumber>)
    ensures r.Some? <==> TruthyNumber(stopLoss) && TruthyNumber(takeProfit)
  {
    if TruthyNumber(stopLoss) && TruthyNumber(takeProfit) then
      if entryPrice.None? then Some(NonFinite)
      else Some(Quotient(Abs(takeProfit.value - entryPrice.value), Abs(entryPrice.value - stopLoss.value)))
    else None
  }

  /** The ratio is the reward distance over the risk distance: non-negative,
      and finite exactly when the stop loss differs from the entry price. */
  lemma RiskRewardMeaning(entryPrice: real, stopLoss: real, takeProfit: real)
    requires stopLoss != 0.0 && takeProfit != 0.0
    ensures var r := RiskReward(Some(entryPrice), Some(stopLoss), Some(takeProfit)).value;
      && (r.Finite? <==> stopLoss != entryPrice)
      && (r.Finite? ==> r.value >= 0.0 && r.value * Abs(entryPrice - stopLoss) == Abs(takeProfit - entryPrice))
  {
    var risk := Abs(entryPrice - stopLoss);
    var reward := Abs(takeProfit - entryPrice);
    if risk != 0.0 {
      var k := Quotient(reward, risk).value;
      assert k * risk == reward;
      if k < 0.0 {
        assert false;
      }
    }
  }

  /** The ratio is NaN: both levels are truthy and either the entry price is
      absent or it equals both levels (0 / 0). The schema's Number cast
      refuses NaN, while ±Infinity (a zero risk with a non-zero reward) is
      stored. */
  predicate RatioIsNaN(entryPrice: Option<real>, stopLoss: Option<real>, takeProfit: Option<real>)
  {
    && TruthyNumber(stopLoss) && TruthyNumber(takeProfit)
    && (entryPrice.None? || (stopLoss.value == entryPrice.value && takeProfit.value == entryPrice.value))
  }

  /** A NaN ratio is non-finite; a non-finite ratio that is not NaN comes from
      a stop loss at the entry price and a take profit elsewhere, a division
      of a non-zero reward by a zero risk. */
  lemma NonFiniteRatios(entryPrice: Option<real>, stopLoss: Option<real>, takeProfit: Option<real>)
    ensures RatioIsNaN(entryPrice, stopLoss, takeProfit) ==>
      RiskReward(entryPrice, stopLoss, takeProfit) == Some(NonFinite)
    ensures RiskReward(entryPrice, stopLoss, takeProfit) == Some(NonFinite) && !RatioIsNaN(entryPrice, stopLoss, takeProfit) ==>
      && entryPrice.Some? && stopLoss.value == entryPrice.value && takeProfit.value != entryPrice.value
  {
    if TruthyNumber(stopLoss) && TruthyNumber(takeProfit) && entryPrice.Some? {
      var risk := Abs(entryPrice.value - stopLoss.value);
      var reward := Abs(takeProfit.value - entryPrice.value);
      assert risk == 0.0 <==> stopLoss.value == entryPrice.value;
      assert reward == 0.0 <==> takeProfit.value == entryPrice.value;
    }
  }

  /** The body of a create request; any field may be missing. */
  datatype CreateRequest = CreateRequest(
    strategy: Option<string>,
    symbol: Option<string>,
    kind: Option<string>,
    entryPrice: Option<real>,
    quantity: Option<real>,
    stopLoss: Option<real>,
    takeProfit: Option<real>,
    aiConfidence: Option<real>)

  /** The schema's required fields are all present (the strategy was already
      looked up). */
  predicate Complete(body: CreateRequest)
  {
    body.strategy.Some? && body.symbol.Some? && body.kind.Some? && body.entryPrice.Some? && body.quantity.Some?
  }

  /** The document createTrade builds at time `now`, before it is saved. */
  function Draft(body: CreateRequest, now: int): (rec: TradeRecord)
    requires Complete(body)
    ensures rec.status == Some("OPEN")
    ensures rec.riskRewardRatio == RiskReward(body.entryPrice, body.stopLoss, body.takeProfit)
    ensures rec.profitLoss.None? && rec.exitPrice.None? && rec.exitTime.None?
  {
    TradeRecord(body.strategy.value, body.symbol.value, body.kind.value, body.entryPrice.value, None,
      body.quantity.value, Some("OPEN"), now, None, None, None, body.aiConfidence,
      body.stopLoss, body.takeProfit, RiskReward(body.entryPrice, body.stopLoss, body.takeProfit), now, now)
  }

  /** A created trade is open and has no result yet: saving it leaves its
      draft unchanged apart from the update time. */
  lemma CreatedTradeIsOpen(body: CreateRequest, now: int)
    requires Complete(body)
    ensures PreSave(Draft(body, now), now) == Draft(body, now)
    ensures PreSave(Draft(body, now), now).status == Some("OPEN")
    ensures PreSave(Draft(body, now), now).profitLoss.None?
  {
  }

  /** createTrade. `strategyLookup` is the outcome of looking the strategy up
      (a lookup that throws, for an id that is not an ObjectId, ends in the
      handler's 400). */
  method CreateTrade(body: CreateRequest, strategyLookup: Lookup<()>, now: int) returns (res: Response<TradeRecord>)
    ensures strategyLookup == Missing ==> res == Response(404, Failure("Trading strategy not found"))
    ensures strategyLookup == Threw ==> res.status == 400 && res.body.Failure?
    ensures strategyLookup.Found? && !Complete(body) ==> res.status == 400 && res.body.Failure?
    ensures strategyLookup.Found? && Complete(body) && !SchemaValid(Draft(body, now)) ==>
      res.status == 400 && res.body.Failure?
    ensures strategyLookup.Found? && RatioIsNaN(body.entryPrice, body.stopLoss, body.takeProfit) ==>
      res.status == 400 && res.body.Failure?
    ensures res.status == 201 <==>
      && strategyLookup.Found? && Complete(body) && SchemaValid(Draft(body, now))
      && !RatioIsNaN(body.entryPrice, body.stopLoss, body.takeProfit)
    ensures res.status == 201 ==> res.body == Success(Draft(body, now))
  {
    if strategyLookup == Threw {
      return Response(400, Failure("CastError"));
    }
    if strategyLookup == Missing {
      return Response(404, Failure("Trading strategy not found"));
    }
    var riskRewardRatio := RiskReward(body.entryPrice, body.stopLoss, body.takeProfit);
    if !Complete(body) {
      return Response(400, Failure("ValidationError: a required path is missing"));
    }
    if RatioIsNaN(body.entryPrice, body.stopLoss, body.takeProfit) {
      return Response(400, Failure("CastError: riskRewardRatio is NaN"));
    }
    var trade := new TradeDocument(body.strategy.value, body.symbol.value, body.kind.value,
      body.entryPrice.value, body.quantity.value, body.stopLoss, body.takeProfit, riskRewardRatio,
      body.aiConfidence, Some("OPEN"), now);
    var saved := trade.Save(now);
    if saved.Failure? {
      return Response(400, Failure(saved.error));
    }
    CreatedTradeIsOpen(body, now);
    res := Response(201, Success(trade.Snapshot()));
  }

  /** A query parameter that denotes a date: its text (for truthiness) and the
      instant `new Date(text)` stands for (date parsing is not modelled). */
  datatype DateParam = DateParam(text: string, time: int)

  predicate Given(d: Option<DateParam>)
  {
    d.Some? && d.value.text != ""
  }

  datatype TradesFilter = TradesFilter(
    status: Option<string>,
    strategy: Option<string>,
    symbol: Option<string>,
    startDate: Option<DateParam>,
    endDate: Option<DateParam>)

  /** `{ $gte: start, $lte: end }`, each bound optional. */
  datatype TimeRange = TimeRange(gte: Option<int>, lte: Option<int>)

  datatype SortOrder = Unsorted | Descending(field: string)

  /** A query document: equality conditions on status, strategy and symbol,
      a range on the entry or exit time, and the sort order. */
  datatype TradeQuery = TradeQuery(
    status: Option<string>,
    strategy: Option<string>,
    symbol: Option<string>,
    entryTime: Option<TimeRange>,
    exitTime: Option<TimeRange>,
    sort: SortOrder)

  /** `{}` with the given dates set as bounds, when at least one is given. */
  function DateRange(startDate: Option<DateParam>, endDate: Option<DateParam>): (r: Option<TimeRange>)
    ensures r.Some? <==> Given(startDate) || Given(endDate)
    ensures r.Some? ==> (r.value.gte.Some? <==> Given(startDate)) && (r.value.lte.Some? <==> Given(endDate))
    ensures r.Some? && r.value.gte.Some? ==> r.value.gte.value == startDate.value.time
    ensures r.Some? && r.value.lte.Some? ==> r.value.lte.value == endDate.value.time
  {
    if Given(startDate) || Given(endDate) then
      Some(TimeRange(if Given(startDate) then Some(startDate.value.time) else None,
                     if Given(endDate) then Some(endDate.value.time) else None))
    else None
  }

  /** A supplied (truthy) string parameter, or nothing. */
  function IfSupplied(s: Option<string>): (r: Option<string>)
    ensures r.Some? <==> Supplied(s)
    ensures r.Some? ==> r == s
  {
    if Supplied(s) then s else None
  }

  /** The listing query: exactly the supplied filters, dates bounding the
      entry time, newest entry first. */
  function TradesQuery(filter: TradesFilter): (q: TradeQuery)
    ensures q.exitTime.None? && q.sort == Descending("entryTime")
  {
    TradeQuery(IfSupplied(filter.status), IfSupplied(filter.strategy), IfSupplied(filter.symbol),
      DateRange(filter.startDate, filter.endDate), None, Descending("entryTime"))
  }

  /** The statistics query: always closed trades only, dates bounding the exit time. */
  function StatsQuery(filter: TradesFilter): (q: TradeQuery)
    ensures q.status == Some("CLOSED") && q.entryTime.None? && q.sort == Unsorted
  {
    TradeQuery(Some("CLOSED"), IfSupplied(filter.strategy), IfSupplied(filter.symbol),
      None, DateRange(filter.startDate, filter.endDate), Unsorted)
  }

  predicate InRange(t: int, range: TimeRange)
  {
    (range.gte.Some? ==> t >= range.gte.value) && (range.lte.Some? ==> t <= range.lte.value)
  }

  /** Whether a stored trade satisfies a query's conditions; a range on a
      missing time is not satisfied, and a query with no conditions matches
      every trade. */
  predicate Matches(q: TradeQuery, rec: TradeRecord): (m: bool)
    ensures q.status.None? && q.strategy.None? && q.symbol.None? && q.entryTime.None? && q.exitTime.None? ==> m
    ensures m && q.exitTime.Some? ==> rec.exitTime.Some?
    ensures m && q.status.Some? ==> rec.status.Some?
  {
    && (q.status.Some? ==> rec.status == q.status)
    && (q.strategy.Some? ==> rec.strategy == q.strategy.value)
    && (q.symbol.Some? ==> rec.symbol == q.symbol.value)
    && (q.entryTime.Some? ==> InRange(rec.entryTime, q.entryTime.value))
    && (q.exitTime.Some? ==> rec.exitTime.Some? && InRange(rec.exitTime.value, q.exitTime.value))
  }

  /** The listing selects a trade exactly when it agrees with every supplied
      filter and its entry time lies between the supplied dates. */
  lemma TradesQuerySelects(filter: TradesFilter, rec: TradeRecord)
    ensures Matches(TradesQuery(filter), rec) <==>
      && (Supplied(filter.status) ==> rec.status == filter.status)
      && (Supplied(filter.strategy) ==> Some(rec.strategy) == filter.strategy)
      && (Supplied(filter.symbol) ==> Some(rec.symbol) == filter.symbol)
      && (Given(filter.startDate) ==> rec.entryTime >= filter.startDate.value.time)
      && (Given(filter.endDate) ==> rec.entryTime <= filter.endDate.value.time)
  {
  }

  /** The statistics select a trade exactly when it is closed, agrees with the
      supplied strategy and symbol, and (when a date is supplied) has an exit
      time between the supplied dates. */
  lemma StatsQuerySelects(filter: TradesFilter, rec: TradeRecord)
    ensures Matches(StatsQuery(filter), rec) <==>
      && rec.status == Some("CLOSED")
      && (Supplied(filter.strategy) ==> Some(rec.strategy) == filter.strategy)
      && (Supplied(filter.symbol) ==> Some(rec.symbol) == filter.symbol)
      && (Given(filter.startDate) || Given(filter.endDate) ==> rec.exitTime.Some?)
      && (Given(filter.startDate) ==> rec.exitTime.value >= filter.startDate.value.time)
      && (Given(filter.endDate) ==> rec.exitTime.value <= filter.endDate.value.time)
  {
  }

  /** getTrades' query, built by conditional assignment. */
  method BuildTradesQuery(filter: TradesFilter) returns (q: TradeQuery)
    ensures q == TradesQuery(filter)
  {
    q := TradeQuery(None, None, None, None, None, Descending("entryTime"));
    if Supplied(filter.status) { q := q.(status := filter.status); }
    if Supplied(filter.strategy) { q := q.(strategy := filter.strategy); }
    if Supplied(filter.symbol) { q := q.(symbol := filter.symbol); }
    if Given(filter.startDate) || Given(filter.endDate) {
      var range := TimeRange(None, None);
      if Given(filter.startDate) { range := range.(gte := Some(filter.startDate.value.time)); }
      if Given(filter.endDate) { range := range.(lte := Some(filter.endDate.value.time)); }
      q := q.(entryTime := Some(range));
    }
  }

  /** getTradeStats' query, built by conditional assignment. */
  method BuildStatsQuery(filter: TradesFilter) returns (q: TradeQuery)
    ensures q == StatsQuery(filter)
  {
    q := TradeQuery(Some("CLOSED"), None, None, None, None, Unsorted);
    if Supplied(filter.strategy) { q := q.(strategy := filter.strategy); }
    if Supplied(filter.symbol) { q := q.(symbol := filter.symbol); }
    if Given(filter.startDate) || Given(filter.endDate) {
      var range := TimeRange(None, None);
      if Given(filter.startDate) { range := range.(gte := Some(filter.startDate.value.time)); }
      if Given(filter.endDate) { range := range.(lte := Some(filter.endDate.value.time)); }
      q := q.(exitTime := Some(range));
    }
  }

  /** The stored trades a query selects, in stored order. */
  function Select(db: seq<TradeRecord>, q: TradeQuery): (found: seq<TradeRecord>)
    ensures |found| <= |db|
    ensures forall i :: 0 <= i < |found| ==> Matches(q, found[i]) && found[i] in db
    ensures forall t :: t in db && Matches(q, t) ==> t in found
  {
    if |db| == 0 then []
    else
      var init := Select(db[..|db| - 1], q);
      if Matches(q, db[|db| - 1]) then init + [db[|db| - 1]] else init
  }

  /** The trade fields updateTrade assigns: the exit price and time only for a
      close with a truthy exit price, and the status always (an absent status
      is stored as `undefined`). */
  function Updated(rec: TradeRecord, exitPrice: Option<real>, status: Option<string>, now: int): (r: TradeRecord)
    ensures r.status == status
    ensures status == Some("CLOSED") && TruthyNumber(exitPrice) ==>
      r.exitPrice == exitPrice && r.exitTime == Some(now)
    ensures !(status == Some("CLOSED") && TruthyNumber(exitPrice)) ==>
      r.exitPrice == rec.exitPrice && r.exitTime == rec.exitTime
    ensures r.(status := rec.status, exitPrice := rec.exitPrice, exitTime := rec.exitTime) == rec
  {
    if status == Some("CLOSED") && TruthyNumber(exitPrice) then
      rec.(exitPrice := exitPrice, exitTime := Some(now), status := status)
    else rec.(status := status)
  }

  /** Closing a trade through updateTrade with a truthy exit price makes the
      save hook compute its result from that exit price. */
  lemma ClosingComputesResult(rec: TradeRecord, exitPrice: real, now: int)
    requires exitPrice != 0.0
    ensures var saved := PreSave(Updated(rec, Some(exitPrice), Some("CLOSED"), now), now);
      && saved.status == Some("CLOSED")
      && saved.exitTime == Some(now)
      && saved.profitLoss == Some(ProfitLoss(rec.kind, rec.entryPrice, exitPrice, rec.quantity))
  {
    PreSaveResult(Updated(rec, Some(exitPrice), Some("CLOSED"), now), now);
  }

  /** updateTrade. `lookup` is the outcome of finding the trade by id. */
  method UpdateTrade(lookup: Lookup<TradeDocument>, exitPrice: Option<real>, status: Option<string>, now: int)
    returns (res: Response<TradeRecord>)
    modifies if lookup.Found? then {lookup.value} else {}
    ensures lookup == Missing ==> res == Response(404, Failure("Trade not found"))
    ensures lookup == Threw ==> res.status == 400 && res.body.Failure?
    ensures lookup.Found? ==>
      var updated := Updated(old(lookup.value.Snapshot()), exitPrice, status, now);
      && (SchemaValid(updated) ==>
            res == Response(200, Success(PreSave(updated, now))) && lookup.value.Snapshot() == PreSave(updated, now))
      && (!SchemaValid(updated) ==> res.status == 400 && res.body.Failure? && lookup.value.Snapshot() == updated)
  {
    if lookup == Threw {
      return Response(400, Failure("CastError"));
    }
    if lookup == Missing {
      return Response(404, Failure("Trade not found"));
    }
    var trade := lookup.value;
    if status == Some("CLOSED") && TruthyNumber(exitPrice) {
      trade.exitPrice := exitPrice;
      trade.exitTime := Some(now);
    }
    trade.status := status;
    var saved := trade.Save(now);
    if saved.Failure? {
      return Response(400, Failure(saved.error));
    }
    res := Response(200, Success(trade.Snapshot()));
  }

  /** The response of getTradeStats. */
  datatype TradeStats = TradeStats(
    totalTrades: nat,
    winningTrades: nat,
    losingTrades: nat,
    totalProfitLoss: JsNumber,
    averageProfitLoss: JsNumber,
    winRate: real,
    averageHoldingTime: JsNumber)

  /** A trade with a positive result (a missing result compares false). */
  predicate Won(t: TradeRecord)
  {
    t.profitLoss.Some? && t.profitLoss.value > 0.0
  }

  /** A trade with a negative result. */
  predicate Lost(t: TradeRecord)
  {
    t.profitLoss.Some? && t.profitLoss.value < 0.0
  }

  /** The number of trades whose result is positive. */
  function Winners(trades: seq<TradeRecord>): (n: nat)
    ensures n <= |trades|
  {
    if |trades| == 0 then 0
    else Winners(trades[..|trades| - 1]) + (if Won(trades[|trades| - 1]) then 1 else 0)
  }

  /** The number of trades whose result is negative. */
  function Losers(trades: seq<TradeRecord>): (n: nat)
    ensures n <= |trades|
  {
    if |trades| == 0 then 0
    else Losers(trades[..|trades| - 1]) + (if Lost(trades[|trades| - 1]) then 1 else 0)
  }

  /** The winning positions below `k` are those below `k - 1` and, if it
      wins, position `k - 1`. */
  lemma WonBelowStep(trades: seq<TradeRecord>, k: nat)
    requires 0 < k <= |trades|
    ensures (set i | 0 <= i < k && Won(trades[i])) ==
            (set i | 0 <= i < k - 1 && Won(trades[i])) + (if Won(trades[k - 1]) then {k - 1} else {})
  {
  }

  /** Winners of the first `k` trades counts exactly the positions below `k`
      holding a winning trade. */
  lemma {:induction false} WinnersPrefix(trades: seq<TradeRecord>, k: nat)
    requires k <= |trades|
    ensures Winners(trades[..k]) == |set i | 0 <= i < k && Won(trades[i])|
  {
    if k > 0 {
      WinnersPrefix(trades, k - 1);
      assert trades[..k][..k - 1] == trades[..k - 1];
      WonBelowStep(trades, k);
    }
  }

  /** Winners counts exactly the positions holding a winning trade. */
  lemma WinnersCount(trades: seq<TradeRecord>)
    ensures Winners(trades) == |set i | 0 <= i < |trades| && Won(trades[i])|
  {
    WinnersPrefix(trades, |trades|);
    assert trades[..|trades|] == trades;
  }

  /** The losing positions below `k` are those below `k - 1` and, if it
      loses, position `k - 1`. */
  lemma LostBelowStep(trades: seq<TradeRecord>, k: nat)
    requires 0 < k <= |trades|
    ensures (set i | 0 <= i < k && Lost(trades[i])) ==
            (set i | 0 <= i < k - 1 && Lost(trades[i])) + (if Lost(trades[k - 1]) then {k - 1} else {})
  {
  }

  /** Losers of the first `k` trades counts exactly the positions below `k`
      holding a losing trade. */
  lemma {:induction false} LosersPrefix(trades: seq<TradeRecord>, k: nat)
    requires k <= |trades|
    ensures Losers(trades[..k]) == |set i | 0 <= i < k && Lost(trades[i])|
  {
    if k > 0 {
      LosersPrefix(trades, k - 1);
      assert trades[..k][..k - 1] == trades[..k - 1];
      LostBelowStep(trades, k);
    }
  }

  /** Losers counts exactly the positions holding a losing trade. */
  lemma LosersCount(trades: seq<TradeRecord>)
    ensures Losers(trades) == |set i | 0 <= i < |trades| && Lost(trades[i])|
  {
    LosersPrefix(trades, |trades|);
    assert trades[..|trades|] == trades;
  }

  /** Trades that neither win nor lose: a zero or missing result. */
  function Flat(trades: seq<TradeRecord>): nat
  {
    if |trades| == 0 then 0
    else
      var t := trades[|trades| - 1];
      Flat(trades[..|trades| - 1]) + (if t.profitLoss.None? || t.profitLoss.value == 0.0 then 1 else 0)
  }

  /** Winners, losers and flat trades partition the trades, so winners and
      losers together never exceed the total. */
  lemma {:induction false} OutcomesPartition(trades: seq<TradeRecord>)
    ensures Winners(trades) + Losers(trades) + Flat(trades) == |trades|
    ensures Winners(trades) + Losers(trades) <= |trades|
  {
    if |trades| > 0 {
      OutcomesPartition(trades[..|trades| - 1]);
    }
  }

  /** `trades.reduce((sum, t) => sum + t.profitLoss, 0)`: one missing result
      makes the sum NaN. */
  function TotalProfitLoss(trades: seq<TradeRecord>): (total: JsNumber)
    ensures total.Finite? <==> forall i :: 0 <= i < |trades| ==> trades[i].profitLoss.Some?
  {
    if |trades| == 0 then Finite(0.0)
    else
      var init := TotalProfitLoss(trades[..|trades| - 1]);
      var t := trades[|trades| - 1];
      assert forall i :: 0 <= i < |trades| - 1 ==> trades[i] == trades[..|trades| - 1][i];
      if init.Finite? && t.profitLoss.Some? then Finite(init.value + t.profitLoss.value) else NonFinite
  }

  /** `trades.reduce((sum, t) => sum + (t.exitTime - t.entryTime), 0)` in
      milliseconds: one missing exit time makes the sum NaN. */
  function TotalHoldingTime(trades: seq<TradeRecord>): (total: JsNumber)
    ensures total.Finite? <==> forall i :: 0 <= i < |trades| ==> trades[i].exitTime.Some?
  {
    if |trades| == 0 then Finite(0.0)
    else
      var init := TotalHoldingTime(trades[..|trades| - 1]);
      var t := trades[|trades| - 1];
      assert forall i :: 0 <= i < |trades| - 1 ==> trades[i] == trades[..|trades| - 1][i];
      if init.Finite? && t.exitTime.Some? then Finite(init.value + (t.exitTime.value - t.entryTime) as real)
      else NonFinite
  }

  /** `a / n` in JavaScript for a possibly non-finite `a`. */
  function Average(total: JsNumber, n: nat): (avg: JsNumber)
    ensures avg.Finite? <==> total.Finite? && n > 0
    ensures avg.Finite? ==> avg.value * (n as real) == total.value
  {
    if total.Finite? then Quotient(total.value, n as real) else NonFinite
  }

  /** The statistics over the selected trades. The average result divides by
      the count without a guard; the win rate and average holding time are
      guarded to 0 for no trades. */
  function Stats(trades: seq<TradeRecord>): (s: TradeStats)
    ensures s.totalTrades == |trades|
    ensures s.winningTrades == Winners(trades) && s.losingTrades == Losers(trades)
    ensures s.winningTrades + s.losingTrades <= s.totalTrades
    ensures s.totalProfitLoss == TotalProfitLoss(trades)
    ensures s.averageProfitLoss == Average(s.totalProfitLoss, |trades|)
    ensures 0.0 <= s.winRate <= 100.0
    ensures |trades| > 0 ==> s.winRate == WinRate(s.winningTrades, |trades|)
    ensures |trades| == 0 ==> s.winRate == 0.0 && s.averageHoldingTime == Finite(0.0)
    ensures |trades| > 0 ==> s.averageHoldingTime == Average(TotalHoldingTime(trades), |trades|)
  {
    OutcomesPartition(trades);
    var n := |trades|;
    var winners := Winners(trades);
    var total := TotalProfitLoss(trades);
    var rate := if n > 0 then WinRate(winners, n) else 0.0;
    var holding := if n > 0 then Average(TotalHoldingTime(trades), n) else Finite(0.0);
    TradeStats(n, winners, Losers(trades), total, Average(total, n), rate, holding)
  }

  /** With no trades the win rate and average holding time are 0 while the
      average result is 0 / 0, NaN. */
  lemma NoTradesStats()
    ensures Stats([]).winRate == 0.0
    ensures Stats([]).averageHoldingTime == Finite(0.0)
    ensures Stats([]).averageProfitLoss == NonFinite
  {
  }

  /** The average result is finite exactly when there are trades and each has
      a result; it is then the total result shared equally. */
  lemma AverageResultMeaning(trades: seq<TradeRecord>)
    ensures Stats(trades).averageProfitLoss.Finite? <==>
      |trades| > 0 && forall i :: 0 <= i < |trades| ==> trades[i].profitLoss.Some?
    ensures Stats(trades).averageProfitLoss.Finite? ==>
      Stats(trades).averageProfitLoss.value * (|trades| as real) == Stats(trades).totalProfitLoss.value
  {
    var total := TotalProfitLoss(trades);
    var s := Stats(trades);
    assert s.totalProfitLoss == total;
    assert s.averageProfitLoss == Average(total, |trades|);
  }

  /** `winners / n * 100`, a percentage. */
  function WinRate(winners: nat, n: nat): (rate: real)
    requires 0 < n && winners <= n
    ensures 0.0 <= rate <= 100.0
    ensures rate * (n as real) == (winners as real) * 100.0
  {
    var share := Ratio(winners as real, n);
    assert share <= 1.0 by {
      if share > 1.0 {
        assert false;
      }
    }
    share * 100.0
  }

  /** getTradeStats over the stored trades `db`: only closed trades are counted. */
  method GetTradeStats(filter: TradesFilter, db: seq<TradeRecord>) returns (stats: TradeStats)
    ensures stats == Stats(Select(db, StatsQuery(filter)))
    ensures stats.totalTrades <= |db|
  {
    var q := BuildStatsQuery(filter);
    var trades := Select(db, q);
    stats := Stats(trades);
  }

  /** Every trade the statistics count is closed. */
  lemma StatsCountOnlyClosed(filter: TradesFilter, db: seq<TradeRecord>)
    ensures forall t :: t in Select(db, StatsQuery(filter)) ==> t.status == Some("CLOSED") && t in db
  {
  }
}
