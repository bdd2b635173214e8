# AI_Trading core, modelled in Dafny

This project models the numerical and decision-making core of the AI_Trading
platform:

- the **backtest pipeline**. `TradeSimulator` fills orders against market ticks with slippage and commission, keeps a cash balance, a symbol-to-position book and a trade log. `calculateMetrics` turns a finished trade list into a per-day equity curve, win/loss statistics, the maximum drawdown and the Sharpe and Sortino ratios;
- the **live trading engine**. It copies strategy signals into orders, asks the risk service to approve them, keeps one position per symbol, re-prices positions and closes the ones the risk service rejects;
- the **risk service**. It applies the position-size limit, the stop-loss / take-profit band on sales and the drawdown limit on open positions;
- the **persisted trade**. This covers its schema constraints and the pre-save hook that computes profit/loss;
- the **trade controller**. It creates trades and computes their risk/reward ratio, builds the listing and statistics queries, updates a trade's status and aggregates statistics over closed trades;
- the **server's `protect` middleware**. It extracts the token from the parsed cookie, the `Authorization: Bearer` header or the raw `Cookie` header, then verifies it and looks up the user. The file's `isVerified` and `restrictTo` guards are modelled too, although the file does not export them;
- the **web client's route guard**. It handles protected pages, sign-in pages and the session check.

Money and prices are `real`. A JavaScript result that can be NaN or
±Infinity is a `JsNumber` (`Finite(v)` or `NonFinite`). Object-mutating code
(the simulator, the engine, the risk service, a trade document) is modelled
as Dafny classes. Their methods update `map`/`seq` fields and are proved
against specification functions (`ApplyFill`, `Fill`, `Repriced`,
`PreSave`). Pure code (metrics, pricing, verdicts, the route guard) is
modelled as functions and lemmas. A database lookup is an input with three
outcomes: `Lookup` = found, null or thrown. The same goes for JWT
verification and the server's session answer.

Behaviours of the code that the model keeps and proves as they are:

- `losingTrades` is `totalTrades - winningTrades`, so break-even trades count as losing (`MetricsCalculator.LosingTrades`). The model follows the code here, not the apparent intent that zero-pnl trades count as neither.
- The metrics never read `initialCapital`: the curve starts from 0 (`MetricsCalculator.FinalEquityIsTotalPnL`).
- The engine adds a same-type order with the wrong weights. It raises the held quantity first, then divides by that raised quantity plus the order's quantity. The result is the quantity-weighted average only when the order's price equals the old entry price (`Engine.AveragedEntryIsWeightedOnlyWhenPricesAgree`).
- Closing a position of type 'BUY' sends a 'BUY' order. That doubles the position instead of closing it (`Engine.ClosingOutcome`).
- The route guard's `/verify-email` exemption never applies: that page is a sign-in page, not a protected one (`RouteGuard.ProtectedIsNotVerifyEmail`).
- `authMiddleware.js` attaches `isVerified` and `restrictTo` to `exports`, then ends with `module.exports = { protect }`, which replaces that object. Only `protect` is reachable from other files. The two guards are still modelled as written (`AuthMiddleware.IsVerified`, `AuthMiddleware.RestrictTo`).
- The first daily return divides by 0 (see "## Findings"), so in JavaScript the returns passed to `calculateSharpeRatio` always start with NaN or ±Infinity. Their variance is then NaN, `NaN > 0` is false, and the Sharpe ratio is 0 for every non-empty trade list. The model's `MetricsCalculator.SharpeRatio` is computed over the guarded returns instead. This consequence is stated here, not proved.

The code does not guard three divisions in `calculateEquityCurve` / `calculateMetrics`; see "## Findings". The model's equity curve uses the guarded versions (0 where the divisor is 0). The as-written versions sit beside them with their counterexamples.

## Model

| member | source | states |
|---|---|---|
| MetricsCalculator.DateKey | backend/src/utils/metricsCalculator.js:187-187 | the day key is the part of the timestamp before its first 'T': a prefix with no 'T', followed by 'T' when shorter |
| MetricsCalculator.DayKeys | backend/src/utils/metricsCalculator.js:180-195 | grouping yields at most one day per trade |
| MetricsCalculator.DayKeysDistinct | backend/src/utils/metricsCalculator.js:180-195 | no day appears twice among the groups |
| MetricsCalculator.DayKeysComplete | backend/src/utils/metricsCalculator.js:180-195 | every trade's day has a group |
| MetricsCalculator.DayKeysSound | backend/src/utils/metricsCalculator.js:180-195 | every group is the day of some trade |
| MetricsCalculator.DayKeysInFirstSeenOrder | backend/src/utils/metricsCalculator.js:186-204 | days are visited in the order in which the trade list first meets them |
| MetricsCalculator.DayKeysHead | backend/src/utils/metricsCalculator.js:186-204 | the first trade's day is the first day visited |
| MetricsCalculator.DayTotals | backend/src/utils/metricsCalculator.js:205-213 | each day's pnl is the sum of the pnl of that day's trades |
| MetricsCalculator.DrawdownMeaning | backend/src/utils/metricsCalculator.js:216-216 | drawdown times peak is the fall from the peak; 0 at a zero peak; equal to the code's quotient wherever that is finite; non-negative below a non-negative peak |
| MetricsCalculator.ReturnMeaning | backend/src/utils/metricsCalculator.js:222-222 | the day's return times the equity before the day is the day's pnl; 0 when that equity is 0; equal to the code's quotient wherever that is finite |
| MetricsCalculator.EquityCurve | backend/src/utils/metricsCalculator.js:178-230 | one point per distinct day, dated by the days in first-seen order |
| MetricsCalculator.CalculateEquityCurve | backend/src/utils/metricsCalculator.js:197-229 | the accumulating loop builds exactly the equity curve |
| MetricsCalculator.PeakNonNegative | backend/src/utils/metricsCalculator.js:200-215 | the running peak starts at 0 and is never negative |
| MetricsCalculator.PeakMonotone | backend/src/utils/metricsCalculator.js:214-215 | the running peak never decreases from one day to a later one |
| MetricsCalculator.EquityCurvePeak | backend/src/utils/metricsCalculator.js:214-224 | a point's peak is the running peak of the daily totals up to that day |
| MetricsCalculator.EquityCurvePeakMonotone | backend/src/utils/metricsCalculator.js:214-224 | peaks along the curve are non-decreasing |
| MetricsCalculator.EquityCurveStep | backend/src/utils/metricsCalculator.js:204-227 | each point follows from the previous one (both starting at 0): equity grows by the day's pnl; the peak is the larger of the previous peak and the equity; the trough is the equity; the return is pnl over the previous equity |
| MetricsCalculator.EquityCurveDrawdown | backend/src/utils/metricsCalculator.js:214-225 | on every point, peak is at least the equity and at least 0, drawdown is non-negative and is the fall from the peak as a fraction of the peak |
| MetricsCalculator.DailyTotalsSumToTotalPnL | backend/src/utils/metricsCalculator.js:204-214 | the daily totals add up to the total pnl of all trades |
| MetricsCalculator.FinalEquityIsTotalPnL | backend/src/utils/metricsCalculator.js:199-214 | the last point's equity is the total pnl; the initial capital is never added |
| MetricsCalculator.EquityCurveCoversDays | backend/src/utils/metricsCalculator.js:180-227 | the curve has a point for a day exactly when some trade falls on that day |
| MetricsCalculator.WinningPnLs | backend/src/utils/metricsCalculator.js:64-78 | the winners' pnl: all positive, at most one per trade |
| MetricsCalculator.LosingPnLs | backend/src/utils/metricsCalculator.js:79-93 | the losers' pnl: all negative, at most one per trade |
| MetricsCalculator.WinningPnLsExact | backend/src/utils/metricsCalculator.js:64-78 | the filter is exact: each positive pnl appears as often as among the trades, and no other value appears |
| MetricsCalculator.LosingPnLsExact | backend/src/utils/metricsCalculator.js:79-93 | the filter is exact: each negative pnl appears as often as among the trades, and no other value appears |
| MetricsCalculator.WinLossPartition | backend/src/utils/metricsCalculator.js:54-93 | every trade is exactly one of winning, losing, break-even; winning and losing pnl add up to the total pnl |
| MetricsCalculator.LosingTrades | backend/src/utils/metricsCalculator.js:61-61 | the reported losing count is the losers plus the break-even trades |
| MetricsCalculator.WinRate | backend/src/utils/metricsCalculator.js:62-62 | between 0 and 1; rate times the trade count is the winner count; 0 for no trades |
| MetricsCalculator.AverageWin | backend/src/utils/metricsCalculator.js:95-106 | non-negative; positive exactly when some trade won; times the winner count it is the gross profit |
| MetricsCalculator.AverageLoss | backend/src/utils/metricsCalculator.js:107-120 | non-negative; positive exactly when some trade lost; times the loser count it is the gross loss's size |
| MetricsCalculator.ProfitFactor | backend/src/utils/metricsCalculator.js:122-142 | gross profit over gross loss when something was lost, 0 otherwise; positive exactly when there are both winners and losers |
| MetricsCalculator.TotalsSigns | backend/src/utils/metricsCalculator.js:122-141 | gross profit ≥ 0, positive exactly when some trade won; gross loss ≤ 0, negative exactly when some trade lost |
| MetricsCalculator.Variance | backend/src/utils/metricsCalculator.js:249-258 | the population variance of the returns is non-negative |
| MetricsCalculator.VariancePositiveIff | backend/src/utils/metricsCalculator.js:239-258 | the variance is positive exactly when the returns are not all equal |
| MetricsCalculator.AnnualizedReturnSign | backend/src/utils/metricsCalculator.js:263-263 | a non-negative mean daily return annualizes to a non-negative return, a zero mean to zero, a mean loss of at most 100% to a loss |
| MetricsCalculator.SharpeRatio | backend/src/utils/metricsCalculator.js:236-266 | non-zero only for varying returns, and then of the sign of the annualized return minus the 2% risk-free rate |
| MetricsCalculator.Negatives | backend/src/utils/metricsCalculator.js:285-291 | the downside returns are negative, and exist exactly when some return is negative |
| MetricsCalculator.DownsideVariance | backend/src/utils/metricsCalculator.js:292-301 | the sum of the squared negative returns divided by the number of ALL returns, not by the number of negative ones; non-negative, and positive exactly when some return is negative |
| MetricsCalculator.SortinoRatio | backend/src/utils/metricsCalculator.js:272-311 | non-zero only when some return is negative, and then of the sign of the annualized return minus the risk-free rate |
| MetricsCalculator.LosingMeanGivesNegativeRatios | backend/src/utils/metricsCalculator.js:236-311 | a strategy losing on average (by at most 100% a day) with varying returns has negative Sharpe and Sortino ratios |
| MetricsCalculator.Returns | backend/src/utils/metricsCalculator.js:149-149 | the returns series is the curve's per-point returns, in order |
| MetricsCalculator.MaxDrawdown | backend/src/utils/metricsCalculator.js:146-146 | the largest drawdown on the curve: at least every drawdown and attained by one; 0 for an empty curve |
| MetricsCalculator.NoTradesMaxDrawdown | backend/src/utils/metricsCalculator.js:145-146 | without trades the code's maximum drawdown is non-finite, the guarded one 0 |
| MetricsCalculator.MaxDrawdownNonNegative | backend/src/utils/metricsCalculator.js:145-146 | the maximum drawdown of a trade list's curve is never negative |
| MetricsCalculator.DrawdownSeries | backend/src/utils/metricsCalculator.js:165-170 | the drawdown series keeps each point's date, drawdown, peak and trough, in order |
| MetricsCalculator.CalculateMetrics | backend/src/utils/metricsCalculator.js:33-172 | the report: counts add up to the total; win rate, averages, profit factor, maximum drawdown, Sharpe and Sortino ratios are those of the trades' equity curve and returns; win rate in [0, 1], non-negative averages, profit factor and maximum drawdown; all zero and empty for no trades |
| MetricsCalculator.FirstReturnDividesByZero | backend/src/utils/metricsCalculator.js:222-222 | as written, the first day's return always divides by zero |
| MetricsCalculator.FirstDrawdownDividesByZero | backend/src/utils/metricsCalculator.js:215-216 | as written, a first day that does not make money divides the drawdown by a zero peak |
| TradeSimulation.MergeOptions | backend/src/utils/tradeSimulator.js:61-68 | no overrides give the defaults (100000, 0.1, 5, 0.001, 0.001); for each of the five fields, a supplied value wins and an absent one keeps its default |
| TradeSimulation.ExecutionPrice | backend/src/utils/tradeSimulator.js:113-122 | the quoted price times 1 + slippage for a 'buy' side and times 1 - slippage otherwise; the quoted price without slippage |
| TradeSimulation.Cost | backend/src/utils/tradeSimulator.js:84-85 | the notional grown by the commission fraction; never below the notional for non-negative notional and commission |
| TradeSimulation.SlippageAgainstTrader | backend/src/utils/tradeSimulator.js:113-122 | the execution price moves by price times slippage, up for a 'buy' side and down otherwise; never in the trader's favour for non-negative inputs |
| TradeSimulation.UnrealizedPnLSymmetric | backend/src/utils/tradeSimulator.js:164-173 | long and short of the same size have opposite unrealized pnl; none at the entry price |
| TradeSimulation.LongGainsAboveEntry | backend/src/utils/tradeSimulator.js:164-170 | a long of positive size gains exactly when the price is above entry |
| TradeSimulation.Marked | backend/src/utils/tradeSimulator.js:152-153 | marking changes only the current price and the unrealized pnl, which then matches the position |
| TradeSimulation.ApplyFill | backend/src/utils/tradeSimulator.js:128-158 | the traded symbol stays in the book exactly when its held quantity plus the trade's signed quantity is not zero, and then holds that quantity on the same side, marked at the close |
| TradeSimulation.FillFrame | backend/src/utils/tradeSimulator.js:128-158 | a fill touches no symbol but the traded one |
| TradeSimulation.FillPreservesBook | backend/src/utils/tradeSimulator.js:128-158 | after a fill the book is still keyed by symbol, holds no flat position, and every unrealized pnl matches its position |
| TradeSimulation.BuyAveragesEntry | backend/src/utils/tradeSimulator.js:139-144 | a buy adds its quantity, re-averages the entry by quantity and marks the position at the close; a first buy opens a long at the fill price |
| TradeSimulation.SellReducesQuantity | backend/src/utils/tradeSimulator.js:145-150 | a sell subtracts its quantity, keeps the entry price and marks the position at the close; the symbol leaves the book exactly at zero; a first sell opens a short of negative size at entry 0 |
| TradeSimulation.MarkAll | backend/src/utils/tradeSimulator.js:178-183 | marking to market keeps the same symbols |
| TradeSimulation.MarkAllPreservesBook | backend/src/utils/tradeSimulator.js:178-183 | marking keeps the book well formed and changes only current price and unrealized pnl |
| TradeSimulation.TradeSimulator.constructor | backend/src/utils/tradeSimulator.js:60-74 | merged options, capital equal to the initial capital, empty book and logs |
| TradeSimulation.TradeSimulator.ExecuteOrder | backend/src/utils/tradeSimulator.js:81-106 | an order costing more than the capital fails and changes nothing; otherwise the capital drops by the cost, the trade (pnl 0, slipped price) is logged and applied to the book; the capital stays the initial capital less all costs |
| TradeSimulation.TradeSimulator.Settle | backend/src/utils/tradeSimulator.js:91-105 | the accepted half: pays, logs and applies the trade; capital stays non-negative |
| TradeSimulation.TradeSimulator.UpdatePosition | backend/src/utils/tradeSimulator.js:128-158 | the book becomes the fill of the trade, still well formed |
| TradeSimulation.TradeSimulator.UpdatePositions | backend/src/utils/tradeSimulator.js:178-183 | every position is marked to the tick's close |
| TradeSimulation.TradeSimulator.GetPositions | backend/src/utils/tradeSimulator.js:188-190 | every stored position exactly once |
| TradeSimulation.TradeSimulator.GetTrades | backend/src/utils/tradeSimulator.js:195-197 | the trade log |
| TradeSimulation.TradeSimulator.GetCapital | backend/src/utils/tradeSimulator.js:202-204 | the current capital |
| TradeSimulation.TradeSimulator.GetTotalPnL | backend/src/utils/tradeSimulator.js:209-216 | realized plus unrealized pnl; since every logged trade carries pnl 0, that is the book's unrealized pnl |
| RiskManagement.OrderVerdict | backend/src/ai/services/riskManagementService.js:46-84 | each outcome exactly characterised: size rejection, the failure of a 'SELL' with no position, stop loss, take profit, approval |
| RiskManagement.ApprovedSaleWithinBand | backend/src/ai/services/riskManagementService.js:59-83 | an approved sale loses at most the stop-loss fraction and gains at most the take-profit fraction of the entry price |
| RiskManagement.EntryPriceInsideBand | backend/src/ai/services/riskManagementService.js:59-81 | with positive entry and non-negative limits, selling at the entry price is inside the band |
| RiskManagement.PositionVerdict | backend/src/ai/services/riskManagementService.js:90-103 | the only rejection is for drawdown |
| RiskManagement.DrawdownThreshold | backend/src/ai/services/riskManagementService.js:90-103 | the drawdown rule as a price threshold `entry * (1 - maxDrawdown)`, per sign of the entry price, including the zero-entry case |
| RiskManagement.UnmovedPositionKept | backend/src/ai/services/riskManagementService.js:90-103 | a position whose price has not moved is kept when the limit is non-negative |
| RiskManagement.RiskManagementService.constructor | backend/src/ai/services/riskManagementService.js:35-39 | the given config and an empty book |
| RiskManagement.RiskManagementService.ValidateOrder | backend/src/ai/services/riskManagementService.js:46-84 | the early-return checks compute exactly `OrderVerdict` |
| RiskManagement.RiskManagementService.ValidatePosition | backend/src/ai/services/riskManagementService.js:90-103 | computes exactly `PositionVerdict` |
| RiskManagement.RiskManagementService.UpdatePosition | backend/src/ai/services/riskManagementService.js:108-110 | stores the position under its symbol, keeping the book keyed |
| RiskManagement.RiskManagementService.RemovePosition | backend/src/ai/services/riskManagementService.js:115-117 | removes the symbol |
| RiskManagement.RiskManagementService.GetPositions | backend/src/ai/services/riskManagementService.js:122-124 | every stored position exactly once |
| RiskManagement.RiskManagementService.GetPosition | backend/src/ai/services/riskManagementService.js:130-132 | the position stored under the symbol, or none |
| Engine.OrderOf | backend/src/ai/services/tradingEngine.js:100-105 | the order carries the signal's symbol, type, price and quantity |
| Engine.Held | backend/src/ai/services/tradingEngine.js:99-99 | the stored position of a symbol, present exactly when the symbol is in the book |
| Engine.Fill | backend/src/ai/services/tradingEngine.js:116-140 | the symbol stays in the book unless an opposite order matches its quantity exactly; no other symbol changes; the book stays keyed |
| Engine.FillOpens | backend/src/ai/services/tradingEngine.js:118-126 | a first order opens a position at its price with no unrealized pnl |
| Engine.FillAdds | backend/src/ai/services/tradingEngine.js:128-133 | a same-type order adds its quantity and sets `entry' * (Q + 2q) = entry * (Q + q) + price * q`; nothing else changes |
| Engine.FillReduces | backend/src/ai/services/tradingEngine.js:134-139 | an opposite order reduces the quantity, keeping the entry price; exactly zero removes the position |
| Engine.AveragedEntryIsWeightedOnlyWhenPricesAgree | backend/src/ai/services/tradingEngine.js:128-133 | the averaged entry equals the quantity-weighted average exactly when the order adds nothing or is priced at the old entry |
| Engine.Mark | backend/src/ai/services/tradingEngine.js:153-157 | re-pricing changes only the current price and the unrealized pnl |
| Engine.UnrealizedPnLSign | backend/src/ai/services/tradingEngine.js:154-157 | a 'LONG' position gains exactly above its entry price; any other type gains exactly below it; none at entry |
| Engine.CloseOrder | backend/src/ai/services/tradingEngine.js:170-175 | the closing order covers the whole quantity at the current price and is 'SELL' for a 'LONG' position and 'BUY' for any other, so it has the position's own type exactly when that type is 'BUY' |
| Engine.ClosingOutcome | backend/src/ai/services/tradingEngine.js:169-178 | closing removes every position except one of type 'BUY', which is doubled with entry `(2 * entry + current) / 3` |
| Engine.RepricedOutcome | backend/src/ai/services/tradingEngine.js:150-163 | after re-pricing, the symbol's position is kept at the new price if accepted, else removed (or doubled for 'BUY'); every other symbol keeps its presence and its position; the book stays keyed |
| Engine.TradingEngine.constructor | backend/src/ai/services/tradingEngine.js:48-55 | the given risk service and an empty book |
| Engine.TradingEngine.ProcessSignal | backend/src/ai/services/tradingEngine.js:98-110 | the result is the risk verdict on the signal's order; the order is executed exactly when approved |
| Engine.TradingEngine.ExecuteOrder | backend/src/ai/services/tradingEngine.js:116-143 | the book becomes `Fill` of the order |
| Engine.TradingEngine.UpdatePositionPrice | backend/src/ai/services/tradingEngine.js:150-163 | the book becomes `Repriced` |
| Engine.TradingEngine.ClosePosition | backend/src/ai/services/tradingEngine.js:169-179 | the book becomes the fill of the closing order |
| Engine.TradingEngine.GetPositions | backend/src/ai/services/tradingEngine.js:184-186 | every stored position exactly once |
| Engine.TradingEngine.GetPosition | backend/src/ai/services/tradingEngine.js:192-194 | the stored position of the symbol, or none |
| TradeModel.SchemaValid | backend/src/models/Trade.js:3-73 | a valid trade has a non-empty symbol, is 'LONG' or 'SHORT' (so the multiplier's -1 branch means 'SHORT'), has a status from the enumeration when it has one, and an AI confidence in [0, 1] when it has one |
| TradeModel.ProfitLoss | backend/src/models/Trade.js:81-83 | a long earns the price rise times the quantity, any other type the price fall times the quantity |
| TradeModel.ProfitLossPercentage | backend/src/models/Trade.js:84-85 | finite exactly when the entry cost is non-zero |
| TradeModel.PreSave | backend/src/models/Trade.js:76-89 | the hook stamps the update time and changes nothing but the update time and the two result fields |
| TradeModel.PreSaveResult | backend/src/models/Trade.js:79-86 | a closed trade with a truthy exit price gets its result from the prices; any other keeps its result fields |
| TradeModel.PreSaveIdempotent | backend/src/models/Trade.js:76-89 | saving twice at the same time equals saving once |
| TradeModel.PreSaveKeepsSchema | backend/src/models/Trade.js:76-89 | the hook never makes a valid document invalid or the reverse |
| TradeModel.ProfitLossSymmetric | backend/src/models/Trade.js:81-83 | a short's result is the negation of a long's; closing at entry breaks even |
| TradeModel.ProfitDirection | backend/src/models/Trade.js:81-83 | a long profits exactly above entry, a short exactly below |
| TradeModel.PercentageIsPriceMove | backend/src/models/Trade.js:81-85 | the percentage is the signed price move relative to the entry price, independent of the quantity |
| TradeModel.TradeDocument.constructor | backend/src/models/Trade.js:29-36 | the schema defaults: status 'OPEN', entry, creation and update times now, no exit or result |
| TradeModel.TradeDocument.Save | backend/src/models/Trade.js:3-89 | an invalid document is refused unchanged; a valid one is run through the hook and stays valid |
| TradeController.RiskReward | backend/src/controllers/tradeController.js:24-30 | a ratio exactly when both stop loss and take profit are truthy |
| TradeController.RiskRewardMeaning | backend/src/controllers/tradeController.js:26-30 | the ratio is reward over risk: finite exactly when the stop differs from entry, then non-negative |
| TradeController.NonFiniteRatios | backend/src/controllers/tradeController.js:26-30 | a NaN ratio (absent entry price, or entry equal to both levels) is non-finite; any other non-finite ratio has the stop at the entry and the take profit elsewhere, i.e. ±Infinity |
| TradeController.Draft | backend/src/controllers/tradeController.js:32-43 | the new trade is open, carries the computed ratio and has no exit or result |
| TradeController.CreatedTradeIsOpen | backend/src/controllers/tradeController.js:32-45 | saving the new trade leaves it open and without a result |
| TradeController.CreateTrade | backend/src/controllers/tradeController.js:5-50 | 404 for a missing strategy; 400 for a failed lookup, a missing required field, an invalid document (including an empty symbol) or a NaN ratio, which the Number cast refuses; 201 with the saved trade exactly when none of these applies |
| TradeController.DateRange | backend/src/controllers/tradeController.js:61-65 | a range exactly when a date is given, with exactly the given bounds |
| TradeController.IfSupplied | backend/src/controllers/tradeController.js:58-60 | a filter is set exactly when its parameter is truthy |
| TradeController.TradesQuery | backend/src/controllers/tradeController.js:55-69 | the listing never bounds the exit time and sorts newest entry first |
| TradeController.StatsQuery | backend/src/controllers/tradeController.js:131-140 | the statistics always select closed trades, never bound the entry time, unsorted |
| TradeController.TradesQuerySelects | backend/src/controllers/tradeController.js:55-67 | the listing selects a trade exactly when it matches every supplied filter and its entry time is within the given dates |
| TradeController.StatsQuerySelects | backend/src/controllers/tradeController.js:131-142 | the statistics select a trade exactly when it is closed, matches strategy and symbol, and its exit time is within the given dates |
| TradeController.BuildTradesQuery | backend/src/controllers/tradeController.js:55-65 | the conditional assignments build exactly `TradesQuery` |
| TradeController.BuildStatsQuery | backend/src/controllers/tradeController.js:131-140 | the conditional assignments build exactly `StatsQuery` |
| TradeController.Matches | backend/src/controllers/tradeController.js:56-67 | a query with no conditions matches every trade; a status or exit-time condition never matches a trade missing that field |
| TradeController.Select | backend/src/controllers/tradeController.js:142-142 | the selected trades are exactly the stored ones that match: each selected trade is stored and matches, and each stored matching trade is selected |
| TradeController.Updated | backend/src/controllers/tradeController.js:93-105 | the status is always assigned; exit price and time only for a close with a truthy exit price; nothing else changes |
| TradeController.ClosingComputesResult | backend/src/controllers/tradeController.js:100-106 | closing with a truthy exit price stamps the exit time and yields the result from that price |
| TradeController.UpdateTrade | backend/src/controllers/tradeController.js:91-111 | 404 for a missing trade, 400 for a failed lookup or invalid update, otherwise 200 with the saved updated trade |
| TradeController.Winners | backend/src/controllers/tradeController.js:146-146 | at most the number of trades |
| TradeController.Losers | backend/src/controllers/tradeController.js:147-147 | at most the number of trades |
| TradeController.WinnersCount | backend/src/controllers/tradeController.js:146-146 | the count is exact: the number of positions holding a trade with a positive result |
| TradeController.LosersCount | backend/src/controllers/tradeController.js:147-147 | the count is exact: the number of positions holding a trade with a negative result |
| TradeController.OutcomesPartition | backend/src/controllers/tradeController.js:145-147 | winners, losers and flat trades partition the trades |
| TradeController.TotalProfitLoss | backend/src/controllers/tradeController.js:148-148 | finite exactly when every trade has a result |
| TradeController.TotalHoldingTime | backend/src/controllers/tradeController.js:158-158 | finite exactly when every trade has an exit time |
| TradeController.Average | backend/src/controllers/tradeController.js:149-150 | finite exactly for a finite total and a non-zero count; then times the count it is the total |
| TradeController.Stats | backend/src/controllers/tradeController.js:144-161 | the total is the count; winners, losers and total result are those of the trades; winners plus losers at most the total; the average result is the total over the count; the win rate is the winners' percentage (0 for no trades); the average holding time is the total over the count (0 for no trades) |
| TradeController.NoTradesStats | backend/src/controllers/tradeController.js:149-160 | with no trades the win rate and holding time are 0 but the average result is NaN |
| TradeController.AverageResultMeaning | backend/src/controllers/tradeController.js:148-150 | the average result is finite exactly when there are trades and all have results, and is then the total shared equally |
| TradeController.WinRate | backend/src/controllers/tradeController.js:151-155 | a percentage in [0, 100] with rate times count equal to winners times 100 |
| TradeController.GetTradeStats | backend/src/controllers/tradeController.js:129-163 | the statistics of the trades the stats query selects, counting no more than are stored |
| TradeController.StatsCountOnlyClosed | backend/src/controllers/tradeController.js:132-142 | every counted trade is closed and stored |
| AuthMiddleware.BearerToken | backend/src/middleware/authMiddleware.js:17-17 | the token taken from the header contains no space |
| AuthMiddleware.BearerTokenOfWellFormedHeader | backend/src/middleware/authMiddleware.js:13-18 | `Bearer <token>` yields exactly the token |
| AuthMiddleware.CookieValue | backend/src/middleware/authMiddleware.js:23-23 | a cookie value contains no `=` |
| AuthMiddleware.CookieValueFollowsName | backend/src/middleware/authMiddleware.js:23-23 | the trimmed entry begins with the name, `=`, and the value |
| AuthMiddleware.CookieNames | backend/src/middleware/authMiddleware.js:21-23 | one name per cookie entry, in order |
| AuthMiddleware.FirstTokenEntry | backend/src/middleware/authMiddleware.js:22-28 | the first entry named `token`: it is named so and no earlier one is |
| AuthMiddleware.CookieHeaderToken | backend/src/middleware/authMiddleware.js:20-29 | a token found in the `Cookie` header contains no `=` and is found only when some entry is named `token` |
| AuthMiddleware.ScanCookieHeader | backend/src/middleware/authMiddleware.js:20-29 | the loop stops at the first entry named `token` and returns its value |
| AuthMiddleware.ExtractToken | backend/src/middleware/authMiddleware.js:8-29 | a truthy parsed cookie is the token; a token is found only when the cookie, the `Authorization` header or the `Cookie` header is supplied; a token taken from a header is a single field (no space or no `=`) |
| AuthMiddleware.ParsedCookieTakesPrecedence | backend/src/middleware/authMiddleware.js:9-11 | a truthy parsed cookie wins whatever the headers say |
| AuthMiddleware.BearerHeaderBeforeCookieHeader | backend/src/middleware/authMiddleware.js:13-20 | with a Bearer header the cookie header is not read |
| AuthMiddleware.Authenticate | backend/src/middleware/authMiddleware.js:31-62 | every denial is 401; no token means "not logged in"; a failed verification or a thrown lookup means "invalid token"; a missing user means "user gone"; a verified token whose user is found passes that user on, and nothing else passes |
| AuthMiddleware.NoTokenNoVerification | backend/src/middleware/authMiddleware.js:31-39 | without a token neither verifier nor lookup matters |
| AuthMiddleware.Protect | backend/src/middleware/authMiddleware.js:4-63 | computes exactly `Authenticate` of the extracted token |
| AuthMiddleware.IsVerified | backend/src/middleware/authMiddleware.js:66-74 | passes exactly verified users, otherwise 403 |
| AuthMiddleware.RestrictTo | backend/src/middleware/authMiddleware.js:77-87 | passes exactly users whose role is listed, otherwise 403 |
| AuthMiddleware.RestrictToMonotone | backend/src/middleware/authMiddleware.js:77-87 | listing more roles never turns an admitted user away |
| RouteGuard.Verified | client/src/middleware.ts:36-38 | only an authenticated session counts as verified |
| RouteGuard.Decide | client/src/middleware.ts:11-63 | the only redirects are to /login, /verify-email and /dashboard; /login only from a protected page without an authenticated session; /verify-email only from a protected page other than itself for an unverified user; /dashboard only from a sign-in page for a verified user |
| RouteGuard.ClassesDisjoint | client/src/middleware.ts:7-18 | no path is both protected and a sign-in page |
| RouteGuard.PrefixClassification | client/src/middleware.ts:15-18 | classification is by prefix (`/dashboardx` and `/settings/profile` are protected, `/login/reset` is a sign-in page, `/` is neither) |
| RouteGuard.UnclassifiedPathsPass | client/src/middleware.ts:20-62 | a page in neither class passes whatever the session |
| RouteGuard.ProtectedPageAccess | client/src/middleware.ts:41-58 | a protected page is shown exactly to a verified user; unauthenticated or failed goes to /login, unverified to /verify-email |
| RouteGuard.ProtectedIsNotVerifyEmail | client/src/middleware.ts:45-45 | the `/verify-email` exemption never applies to a protected path |
| RouteGuard.AuthPageAccess | client/src/middleware.ts:51-58 | a sign-in page sends a verified user to /dashboard and lets everyone else through, also when the check fails |
| RouteGuard.NoRedirectLoop | client/src/middleware.ts:11-63 | following a redirect with the same session never redirects again |

## Left out

- I/O and the runtime are not modelled: `res.status().json()` becomes a returned `Response`/`Outcome`; `console` logging is dropped; event emission ('riskViolation', 'orderExecuted', 'positionClosed') is dropped, and the violation kind is carried in the verdict instead; `async`/`await` is treated as sequential code.
- The trading engine's `createStrategy` and `startTrading` only forward to the strategy and market-data services, which are not part of this model, so they are left out.
- MongoDB is reduced to lookup outcomes (`Lookup`) and to a selection over stored records (`TradeController.Select`). `populate`, sorting by `entryTime`, `getTrade` and `deleteTrade` (a lookup and a removal) are not modelled. Neither are Mongoose casts (a string that is not a number, a date that does not parse), except the refusal of a NaN risk/reward ratio (`TradeController.RatioIsNaN`).
- JWT verification, the user lookup, `fetch` of `/api/auth/me` and `new Date(...)` are inputs. Parsing the JSON body is folded into the session check's outcome, and `isVerified` is taken as a boolean.
- The Next.js `matcher` configuration (client/src/middleware.ts:65-76) is routing configuration, not logic; it is not modelled.
- The order of a JavaScript `Map`'s values is not modelled: the `GetPositions` methods return each position once, in some order. Nor are objects whose keys are integer-like strings, which JavaScript iterates before the others (a timestamp without a 'T' that is all digits): `DayKeys` uses plain first-seen order.
- Aliasing is not modelled. The simulator and engine return their live position objects, which the source mutates in place; the model stores positions as values in a `map`.
- `Math.sqrt` is modelled only by its sign (`Numeric.Sqrt`), so `MetricsCalculator.SharpeRatio` and `MetricsCalculator.SortinoRatio` are ghost functions whose contracts state signs, not magnitudes.
- Floating point is modelled as exact real arithmetic; rounding is not modelled.
- TradeSimulation.TradeSimulator.ExecuteOrder: requires that an affordable 'buy' does not bring an existing position to exactly zero. The source then divides 0 by 0 and leaves a flat NaN-priced position in the book. A refused order is modelled for every input.
- Engine.TradingEngine.ExecuteOrder: requires `FillDefined`. Adding to a same-type position whose held quantity plus twice the order's is zero divides by zero in the source.
- Engine.TradingEngine.UpdatePositionPrice: requires `Closable` only of a position the risk service rejects at the new price. Closing a 'BUY' position of quantity zero would hit the same division. The same requires sits on `Engine.Repriced` and `Engine.RepricedOutcome`.
- The risk service's own positions map is modelled (`UpdatePosition`, `RemovePosition`), but the engine never calls those methods, so it never feeds that map.
- `orders` in the simulator and `maxPositionSize`/`maxOpenPositions` in its options are stored and never used by the source; the model keeps them and proves nothing about them.

## Findings

| source | as written | input that shows it | evidently intended | confidence | as-written member | corrected member |
|---|---|---|---|---|---|---|
| backend/src/utils/metricsCalculator.js:222 | the day's return divides the day's pnl by the equity before the day, which is 0 on the first day | any non-empty trade list: the first day's return is ±Infinity or NaN | return 0 when the equity before the day is 0 | high (not executed) | MetricsCalculator.FirstReturnDividesByZero | MetricsCalculator.ReturnMeaning |
| backend/src/utils/metricsCalculator.js:216 | the drawdown divides by the running peak, which is 0 until equity first turns positive | a single trade with pnl -100: peak 0, drawdown 100 / 0 | drawdown 0 while the peak is 0 | high (not executed) | MetricsCalculator.FirstDrawdownDividesByZero | MetricsCalculator.DrawdownMeaning |
| backend/src/utils/metricsCalculator.js:146 | the maximum drawdown is `Math.max` over the curve's drawdowns, which is -Infinity for an empty curve | `calculateMetrics([], 100000)` | maximum drawdown 0 for no trades | high (not executed) | MetricsCalculator.NoTradesMaxDrawdown | MetricsCalculator.MaxDrawdownNonNegative |
