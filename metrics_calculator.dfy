/** The performance report of a finished backtest
    (backend/src/utils/metricsCalculator.js): win/loss statistics, a per-day
    equity curve with its running peak and drawdown, and the Sharpe and
    Sortino ratios of the curve's daily returns. Everything is a function of
    the trade list; the initial capital the caller passes is never read. */
module MetricsCalculator {
  import opened Values
  import opened Numeric
  import opened BacktestTypes

  // ---------------------------------------------------------------------
  // Grouping trades by day
  // ---------------------------------------------------------------------

  /** `timestamp.split('T')[0]`: the text before the first 'T'. */
  function DateKey(timestamp: string): (key: string)
    ensures key <= timestamp
    ensures 'T' !in key
    ensures |key| < |timestamp| ==> timestamp[|key|] == 'T'
  {
    if |timestamp| == 0 || timestamp[0] == 'T' then ""
    else [timestamp[0]] + DateKey(timestamp[1..])
  }

  function KeyOf(t: Trade): string
  {
    DateKey(t.timestamp)
  }

  ghost predicate OccursIn(trades: seq<Trade>, key: string)
  {
    exists i :: 0 <= i < |trades| && KeyOf(trades[i]) == key
  }

  /** The distinct date keys of the trades, in the order in which the
      grouping `reduce` first meets them. */
  function DayKeys(trades: seq<Trade>): (keys: seq<string>)
    ensures |keys| <= |trades|
  {
    if |trades| == 0 then []
    else
      var init := trades[..|trades| - 1];
      var keys0 := DayKeys(init);
      var k := KeyOf(trades[|trades| - 1]);
      if k in keys0 then keys0 else keys0 + [k]
  }

  /** No day appears twice among the keys. */
  lemma {:induction false} DayKeysDistinct(trades: seq<Trade>)
    ensures forall i, j :: 0 <= i < j < |DayKeys(trades)| ==> DayKeys(trades)[i] != DayKeys(trades)[j]
  {
    if |trades| > 0 {
      DayKeysDistinct(trades[..|trades| - 1]);
    }
  }

  /** Every trade's day is among the day keys. */
  lemma {:induction false} DayKeysComplete(trades: seq<Trade>)
    ensures forall i :: 0 <= i < |trades| ==> KeyOf(trades[i]) in DayKeys(trades)
  {
    if |trades| > 0 {
      var init := trades[..|trades| - 1];
      DayKeysComplete(init);
      assert forall i :: 0 <= i < |init| ==> init[i] == trades[i];
    }
  }

  /** Every day key is the day of some trade. */
  lemma {:induction false} DayKeysSound(trades: seq<Trade>)
    ensures forall k :: k in DayKeys(trades) ==> OccursIn(trades, k)
  {
    if |trades| > 0 {
      var n := |trades|;
      var init := trades[..n - 1];
      DayKeysSound(init);
      forall k | k in DayKeys(trades) ensures OccursIn(trades, k) {
        if k in DayKeys(init) {
          var i :| 0 <= i < |init| && KeyOf(init[i]) == k;
          assert KeyOf(trades[i]) == k;
        } else {
          assert KeyOf(trades[n - 1]) == k;
        }
      }
    }
  }

  /** Index `i` is where `key` first occurs among the trades. */
  ghost predicate FirstSeenAt(trades: seq<Trade>, key: string, i: int)
  {
    0 <= i < |trades| && KeyOf(trades[i]) == key &&
    forall j :: 0 <= j < i ==> KeyOf(trades[j]) != key
  }

  /** The day keys come in first-seen order: a key listed earlier was met
      earlier in the trade list. */
  lemma {:induction false} DayKeysInFirstSeenOrder(trades: seq<Trade>, a: int, b: int, ia: int, ib: int)
    requires 0 <= a < b < |DayKeys(trades)|
    requires FirstSeenAt(trades, DayKeys(trades)[a], ia)
    requires FirstSeenAt(trades, DayKeys(trades)[b], ib)
    ensures ia < ib
  {
    var n := |trades|;
    var init := trades[..n - 1];
    var keys0 := DayKeys(init);
    var keys := DayKeys(trades);
    DayKeysSound(init);
    assert keys[a] == keys0[a];
    FirstSeenInPrefix(trades, keys0[a], ia);
    if b < |keys0| {
      assert keys[b] == keys0[b];
      FirstSeenInPrefix(trades, keys0[b], ib);
      DayKeysInFirstSeenOrder(init, a, b, ia, ib);
    } else {
      // keys[b] is the last trade's key, new to the prefix: first seen at n - 1
      DayKeysComplete(init);
      assert keys[b] == KeyOf(trades[n - 1]) && keys[b] !in keys0;
      assert forall i :: 0 <= i < |init| ==> init[i] == trades[i];
    }
  }

  /** A key met in all but the last trade is first seen there, at the same index. */
  lemma FirstSeenInPrefix(trades: seq<Trade>, key: string, i: int)
    requires |trades| > 0 && OccursIn(trades[..|trades| - 1], key)
    requires FirstSeenAt(trades, key, i)
    ensures i < |trades| - 1 && FirstSeenAt(trades[..|trades| - 1], key, i)
  {
    var init := trades[..|trades| - 1];
    var w :| 0 <= w < |init| && KeyOf(init[w]) == key;
    assert KeyOf(trades[w]) == key;
    assert forall j :: 0 <= j < |init| ==> init[j] == trades[j];
  }

  /** Sum of the pnl of the trades whose date key is `key`. */
  function DayPnL(trades: seq<Trade>, key: string): real
  {
    if |trades| == 0 then 0.0
    else
      var last := trades[|trades| - 1];
      DayPnL(trades[..|trades| - 1], key) + (if KeyOf(last) == key then last.pnl else 0.0)
  }

  /** Daily pnl for each of the given keys, in the same order. */
  function DayTotals(trades: seq<Trade>, keys: seq<string>): (totals: seq<real>)
    ensures |totals| == |keys|
    ensures forall i :: 0 <= i < |keys| ==> totals[i] == DayPnL(trades, keys[i])
  {
    if |keys| == 0 then []
    else DayTotals(trades, keys[..|keys| - 1]) + [DayPnL(trades, keys[|keys| - 1])]
  }

  /** The pnl of every trade, in order. */
  function PnLs(trades: seq<Trade>): (ps: seq<real>)
    ensures |ps| == |trades|
    ensures forall i :: 0 <= i < |trades| ==> ps[i] == trades[i].pnl
  {
    if |trades| == 0 then [] else PnLs(trades[..|trades| - 1]) + [trades[|trades| - 1].pnl]
  }

  // ---------------------------------------------------------------------
  // The equity curve
  // ---------------------------------------------------------------------

  /** Running peak after `n` days: the largest of 0 and the equities so far. */
  function Peak(pnls: seq<real>, n: nat): real
    requires n <= |pnls|
  {
    if n == 0 then 0.0 else Max(Peak(pnls, n - 1), Sum(pnls[..n]))
  }

  /** `(peak - equity) / peak`, guarded to 0 where the peak is 0. */
  function Drawdown(peak: real, equity: real): real
  {
    if peak != 0.0 then (peak - equity) / peak else 0.0
  }

  /** A day's pnl over the equity before that day, guarded to 0 where that
      equity is 0. */
  function PeriodReturn(dailyPnL: real, equity: real): real
  {
    var before := equity - dailyPnL;
    if before != 0.0 then dailyPnL / before else 0.0
  }

  /** `(peakCapital - currentCapital) / peakCapital` exactly as the source
      divides: non-finite when the peak is 0. */
  function DrawdownAsWritten(peak: real, equity: real): JsNumber
  {
    Quotient(peak - equity, peak)
  }

  /** `dailyPnL / (currentCapital - dailyPnL)` exactly as the source divides:
      non-finite when the equity before the day is 0. */
  function ReturnAsWritten(dailyPnL: real, equity: real): JsNumber
  {
    Quotient(dailyPnL, equity - dailyPnL)
  }

  /** The guarded drawdown is the fall from the peak as a fraction of the
      peak, agrees with the source wherever the source's division is finite,
      and is never negative below a non-negative peak. */
  lemma DrawdownMeaning(peak: real, equity: real)
    ensures peak != 0.0 ==> Drawdown(peak, equity) * peak == peak - equity
    ensures peak == 0.0 ==> Drawdown(peak, equity) == 0.0
    ensures DrawdownAsWritten(peak, equity).Finite?
        ==> Drawdown(peak, equity) == DrawdownAsWritten(peak, equity).value
    ensures peak >= 0.0 && equity <= peak ==> Drawdown(peak, equity) >= 0.0
  {
    if peak > 0.0 && equity <= peak {
      var d := Drawdown(peak, equity);
      if d < 0.0 {
        assert false;
      }
    }
  }

  /** The guarded return is the day's pnl over the previous equity and
      agrees with the source wherever the source's division is finite. */
  lemma ReturnMeaning(dailyPnL: real, prevEquity: real)
    ensures prevEquity != 0.0 ==> PeriodReturn(dailyPnL, prevEquity + dailyPnL) * prevEquity == dailyPnL
    ensures prevEquity == 0.0 ==> PeriodReturn(dailyPnL, prevEquity + dailyPnL) == 0.0
    ensures ReturnAsWritten(dailyPnL, prevEquity + dailyPnL).Finite?
        ==> PeriodReturn(dailyPnL, prevEquity + dailyPnL) == ReturnAsWritten(dailyPnL, prevEquity + dailyPnL).value
  {
    assert prevEquity + dailyPnL - dailyPnL == prevEquity;
  }

  /** Point `i` of the curve built from the day keys and their daily pnl. */
  function PointAt(keys: seq<string>, pnls: seq<real>, i: nat): EquityPoint
    requires |keys| == |pnls| && i < |keys|
  {
    var equity := Sum(pnls[..i + 1]);
    var peak := Peak(pnls, i + 1);
    EquityPoint(keys[i], equity, PeriodReturn(pnls[i], equity), Drawdown(peak, equity), peak, equity)
  }

  /** The equity curve of a trade list: one point per distinct day, in
      first-seen order. */
  function EquityCurve(trades: seq<Trade>): (curve: seq<EquityPoint>)
    ensures |curve| == |DayKeys(trades)|
    ensures forall i :: 0 <= i < |curve| ==> curve[i].date == DayKeys(trades)[i]
  {
    var keys := DayKeys(trades);
    var pnls := DayTotals(trades, keys);
    seq(|keys|, i requires 0 <= i < |keys| => PointAt(keys, pnls, i))
  }

  /** calculateEquityCurve: walks the day groups, accumulating the running
      equity and peak and appending one point per day. */
  method CalculateEquityCurve(trades: seq<Trade>) returns (curve: seq<EquityPoint>)
    ensures curve == EquityCurve(trades)
  {
    var keys := DayKeys(trades);
    ghost var pnls := DayTotals(trades, keys);
    curve := [];
    var currentCapital := 0.0;
    var peakCapital := 0.0;
    for i := 0 to |keys|
      invariant |curve| == i
      invariant currentCapital == Sum(pnls[..i])
      invariant peakCapital == Peak(pnls, i)
      invariant forall j :: 0 <= j < i ==> curve[j] == PointAt(keys, pnls, j)
    {
      var dailyPnL := DayPnL(trades, keys[i]);
      assert pnls[..i + 1][..i] == pnls[..i];
      currentCapital := currentCapital + dailyPnL;
      peakCapital := Max(peakCapital, currentCapital);
      var drawdown := Drawdown(peakCapital, currentCapital);
      curve := curve + [EquityPoint(keys[i], currentCapital, PeriodReturn(dailyPnL, currentCapital),
                                    drawdown, peakCapital, currentCapital)];
    }
  }

  lemma {:induction false} PeakNonNegative(pnls: seq<real>, n: nat)
    requires n <= |pnls|
    ensures Peak(pnls, n) >= 0.0
  {
    if n > 0 {
      PeakNonNegative(pnls, n - 1);
    }
  }

  lemma {:induction false} PeakMonotone(pnls: seq<real>, m: nat, n: nat)
    requires m <= n <= |pnls|
    ensures Peak(pnls, m) <= Peak(pnls, n)
  {
    if m < n {
      PeakMonotone(pnls, m, n - 1);
    }
  }

  /** Point `p` follows a day with equity `prevEquity` and peak `prevPeak`
      on a day whose pnl is `daily`. */
  ghost predicate Follows(prevEquity: real, prevPeak: real, daily: real, p: EquityPoint)
  {
    && p.equity == prevEquity + daily
    && p.peak == Max(prevPeak, p.equity)
    && p.trough == p.equity
    && (prevEquity != 0.0 ==> p.periodReturn * prevEquity == daily)
    && (prevEquity == 0.0 ==> p.periodReturn == 0.0)
  }

  /** The peak of `p` dominates its equity and is not negative, and its
      drawdown is the fall from the peak as a fraction of the peak (0 when
      the peak is 0), hence never negative. */
  ghost predicate DrawdownBounded(p: EquityPoint)
  {
    && p.peak >= p.equity
    && p.peak >= 0.0
    && p.drawdown >= 0.0
    && (p.peak > 0.0 ==> p.drawdown * p.peak == p.peak - p.equity)
    && (p.peak == 0.0 ==> p.drawdown == 0.0)
  }

  lemma PointStep(keys: seq<string>, pnls: seq<real>, i: nat)
    requires |keys| == |pnls| && i < |keys|
    ensures Follows(if i == 0 then 0.0 else PointAt(keys, pnls, i - 1).equity,
                    if i == 0 then 0.0 else PointAt(keys, pnls, i - 1).peak,
                    pnls[i], PointAt(keys, pnls, i))
  {
    assert pnls[..i + 1][..i] == pnls[..i];
    ReturnMeaning(pnls[i], Sum(pnls[..i]));
  }

  lemma PointDrawdown(keys: seq<string>, pnls: seq<real>, i: nat)
    requires |keys| == |pnls| && i < |keys|
    ensures DrawdownBounded(PointAt(keys, pnls, i))
  {
    PeakNonNegative(pnls, i + 1);
    var p := PointAt(keys, pnls, i);
    DrawdownMeaning(p.peak, p.equity);
  }

  /** Point `i` of the curve, named through its day keys and daily pnl. */
  lemma EquityCurveAt(trades: seq<Trade>, i: int)
    requires 0 <= i < |EquityCurve(trades)|
    ensures EquityCurve(trades)[i] == PointAt(DayKeys(trades), DayTotals(trades, DayKeys(trades)), i)
  {
  }

  /** The peak of a point is the running peak of the day totals up to it. */
  lemma EquityCurvePeak(trades: seq<Trade>, i: int)
    requires 0 <= i < |EquityCurve(trades)|
    ensures EquityCurve(trades)[i].peak == Peak(DayTotals(trades, DayKeys(trades)), i + 1)
  {
    EquityCurveAt(trades, i);
  }

  /** The running peak never decreases along the curve. */
  lemma EquityCurvePeakMonotone(trades: seq<Trade>, i: int, j: int)
    requires 0 <= i <= j < |EquityCurve(trades)|
    ensures EquityCurve(trades)[i].peak <= EquityCurve(trades)[j].peak
  {
    EquityCurvePeak(trades, i);
    EquityCurvePeak(trades, j);
    PeakMonotone(DayTotals(trades, DayKeys(trades)), i + 1, j + 1);
  }

  /** Each point follows from the one before it, equity and peak starting at
      0: equity grows by the day's pnl, the peak is the larger of the previous
      peak and the new equity, the trough is the equity, and the return is the
      day's pnl over the previous equity (0 when that equity is 0). */
  lemma EquityCurveStep(trades: seq<Trade>, i: int)
    requires 0 <= i < |EquityCurve(trades)|
    ensures Follows(if i == 0 then 0.0 else EquityCurve(trades)[i - 1].equity,
                    if i == 0 then 0.0 else EquityCurve(trades)[i - 1].peak,
                    DayPnL(trades, DayKeys(trades)[i]), EquityCurve(trades)[i])
  {
    var keys := DayKeys(trades);
    var pnls := DayTotals(trades, keys);
    EquityCurveAt(trades, i);
    if i > 0 {
      EquityCurveAt(trades, i - 1);
    }
    PointStep(keys, pnls, i);
  }

  /** Every drawdown on the curve is bounded as `DrawdownBounded` says. */
  lemma EquityCurveDrawdown(trades: seq<Trade>, i: int)
    requires 0 <= i < |EquityCurve(trades)|
    ensures DrawdownBounded(EquityCurve(trades)[i])
  {
    var keys := DayKeys(trades);
    EquityCurveAt(trades, i);
    PointDrawdown(keys, DayTotals(trades, keys), i);
  }

  // ---- the final equity is the total pnl -------------------------------

  lemma {:induction false} DayPnLAbsent(trades: seq<Trade>, key: string)
    requires forall i :: 0 <= i < |trades| ==> KeyOf(trades[i]) != key
    ensures DayPnL(trades, key) == 0.0
  {
    if |trades| > 0 {
      DayPnLAbsent(trades[..|trades| - 1], key);
    }
  }

  /** Appending a trade adds its pnl to the total of its own day, if that day
      is among the (distinct) keys. */
  lemma {:induction false} DayTotalsSnoc(init: seq<Trade>, t: Trade, keys: seq<string>)
    requires forall i, j :: 0 <= i < j < |keys| ==> keys[i] != keys[j]
    ensures Sum(DayTotals(init + [t], keys))
         == Sum(DayTotals(init, keys)) + (if KeyOf(t) in keys then t.pnl else 0.0)
  {
    if |keys| > 0 {
      var ks := keys[..|keys| - 1];
      var k := keys[|keys| - 1];
      DayTotalsSnoc(init, t, ks);
      assert (init + [t])[..|init|] == init;
      assert DayTotals(init + [t], keys)[..|ks|] == DayTotals(init + [t], ks);
      assert DayTotals(init, keys)[..|ks|] == DayTotals(init, ks);
      assert KeyOf(t) in keys <==> KeyOf(t) in ks || KeyOf(t) == k;
      assert !(KeyOf(t) in ks && KeyOf(t) == k);
    }
  }

  lemma {:induction false} DailyTotalsSumToTotalPnL(trades: seq<Trade>)
    ensures Sum(DayTotals(trades, DayKeys(trades))) == Sum(PnLs(trades))
  {
    if |trades| > 0 {
      var n := |trades|;
      var init := trades[..n - 1];
      var t := trades[n - 1];
      var keys0 := DayKeys(init);
      assert trades == init + [t];
      DailyTotalsSumToTotalPnL(init);
      assert PnLs(trades)[..n - 1] == PnLs(init);
      DayKeysDistinct(init);
      DayTotalsSnoc(init, t, keys0);
      DayKeysComplete(init);
      if KeyOf(t) !in keys0 {
        var keys := keys0 + [KeyOf(t)];
        assert keys[..|keys0|] == keys0;
        assert DayTotals(trades, keys)[..|keys0|] == DayTotals(trades, keys0);
        DayPnLAbsent(init, KeyOf(t));
        assert init == trades[..n - 1];
      }
    }
  }

  /** The last point's equity is the sum of every trade's pnl: the curve
      starts from 0 and never adds the initial capital. */
  lemma FinalEquityIsTotalPnL(trades: seq<Trade>)
    requires |EquityCurve(trades)| > 0
    ensures EquityCurve(trades)[|EquityCurve(trades)| - 1].equity == Sum(PnLs(trades))
  {
    var keys := DayKeys(trades);
    var pnls := DayTotals(trades, keys);
    assert pnls[..|keys|] == pnls;
    DailyTotalsSumToTotalPnL(trades);
  }

  /** One point per day that some trade falls on, and no other. */
  lemma EquityCurveCoversDays(trades: seq<Trade>, key: string)
    ensures (exists i :: 0 <= i < |EquityCurve(trades)| && EquityCurve(trades)[i].date == key)
        <==> OccursIn(trades, key)
  {
    var keys := DayKeys(trades);
    DayKeysComplete(trades);
    DayKeysSound(trades);
    if OccursIn(trades, key) {
      var i :| 0 <= i < |trades| && KeyOf(trades[i]) == key;
      var j :| 0 <= j < |keys| && keys[j] == key;
      assert EquityCurve(trades)[j].date == key;
    }
  }

  // ---------------------------------------------------------------------
  // Win/loss statistics
  // ---------------------------------------------------------------------

  /** The pnl of the trades that made money (`pnl > 0`), in order: every
      positive pnl, as often as it occurs, and nothing else. */
  function WinningPnLs(trades: seq<Trade>): (ws: seq<real>)
    ensures |ws| <= |trades|
    ensures forall i :: 0 <= i < |ws| ==> ws[i] > 0.0
  {
    if |trades| == 0 then []
    else
      var t := trades[|trades| - 1];
      WinningPnLs(trades[..|trades| - 1]) + (if t.pnl > 0.0 then [t.pnl] else [])
  }

  /** The pnl of the trades that lost money (`pnl < 0`), in order: every
      negative pnl, as often as it occurs, and nothing else. */
  function LosingPnLs(trades: seq<Trade>): (ls: seq<real>)
    ensures |ls| <= |trades|
    ensures forall i :: 0 <= i < |ls| ==> ls[i] < 0.0
  {
    if |trades| == 0 then []
    else
      var t := trades[|trades| - 1];
      LosingPnLs(trades[..|trades| - 1]) + (if t.pnl < 0.0 then [t.pnl] else [])
  }
  /** Every winning pnl is kept, as often as it occurs, and nothing else. */
  lemma {:induction false} WinningPnLsExact(trades: seq<Trade>)
    ensures forall x ::
              multiset(WinningPnLs(trades))[x] == if x > 0.0 then multiset(PnLs(trades))[x] else 0
  {
    if |trades| > 0 {
      var init := trades[..|trades| - 1];
      WinningPnLsExact(init);
      assert PnLs(trades) == PnLs(init) + [trades[|trades| - 1].pnl];
    }
  }

  /** Every losing pnl is kept, as often as it occurs, and nothing else. */
  lemma {:induction false} LosingPnLsExact(trades: seq<Trade>)
    ensures forall x ::
              multiset(LosingPnLs(trades))[x] == if x < 0.0 then multiset(PnLs(trades))[x] else 0
  {
    if |trades| > 0 {
      var init := trades[..|trades| - 1];
      LosingPnLsExact(init);
      assert PnLs(trades) == PnLs(init) + [trades[|trades| - 1].pnl];
    }
  }


  /** The number of trades that broke even (`pnl == 0`). */
  function BreakEvenCount(trades: seq<Trade>): nat
  {
    if |trades| == 0 then 0
    else BreakEvenCount(trades[..|trades| - 1]) + (if trades[|trades| - 1].pnl == 0.0 then 1 else 0)
  }

  /** Every trade is exactly one of winning, losing or break-even, and the
      winning and losing pnl together make up the total pnl. */
  lemma {:induction false} WinLossPartition(trades: seq<Trade>)
    ensures |WinningPnLs(trades)| + |LosingPnLs(trades)| + BreakEvenCount(trades) == |trades|
    ensures Sum(WinningPnLs(trades)) + Sum(LosingPnLs(trades)) == Sum(PnLs(trades))
  {
    if |trades| > 0 {
      var n := |trades|;
      var init := trades[..n - 1];
      var t := trades[n - 1];
      WinLossPartition(init);
      assert PnLs(trades) == PnLs(init) + [t.pnl];
      SumAppendOne(PnLs(init), t.pnl);
      if t.pnl > 0.0 {
        assert WinningPnLs(trades) == WinningPnLs(init) + [t.pnl];
        assert LosingPnLs(trades) == LosingPnLs(init);
        SumAppendOne(WinningPnLs(init), t.pnl);
      } else if t.pnl < 0.0 {
        assert WinningPnLs(trades) == WinningPnLs(init);
        assert LosingPnLs(trades) == LosingPnLs(init) + [t.pnl];
        SumAppendOne(LosingPnLs(init), t.pnl);
      } else {
        assert WinningPnLs(trades) == WinningPnLs(init);
        assert LosingPnLs(trades) == LosingPnLs(init);
      }
    }
  }

  /** `losingTrades = totalTrades - winningTrades`: the trades that lost
      money together with those that broke even. */
  function LosingTrades(trades: seq<Trade>): (n: nat)
    ensures n == |LosingPnLs(trades)| + BreakEvenCount(trades)
  {
    WinLossPartition(trades);
    |trades| - |WinningPnLs(trades)|
  }

  /** `winningTrades / totalTrades`, 0 for no trades. */
  function WinRate(trades: seq<Trade>): (r: real)
    ensures 0.0 <= r <= 1.0
    ensures |trades| > 0 ==> r * (|trades| as real) == |WinningPnLs(trades)| as real
    ensures |trades| == 0 ==> r == 0.0
  {
    if |trades| > 0 then (|WinningPnLs(trades)| as real) / (|trades| as real) else 0.0
  }

  /** Mean pnl of the winning trades, 0 when there are none. */
  function AverageWin(trades: seq<Trade>): (r: real)
    ensures r >= 0.0
    ensures r > 0.0 <==> |WinningPnLs(trades)| > 0
    ensures |WinningPnLs(trades)| > 0 ==> r * (|WinningPnLs(trades)| as real) == Sum(WinningPnLs(trades))
  {
    var ws := WinningPnLs(trades);
    TotalsSigns(trades);
    if |ws| > 0 then Ratio(Sum(ws), |ws|) else 0.0
  }

  /** Mean size of the losses (a non-negative number), 0 when there are none. */
  function AverageLoss(trades: seq<Trade>): (r: real)
    ensures r >= 0.0
    ensures r > 0.0 <==> |LosingPnLs(trades)| > 0
    ensures |LosingPnLs(trades)| > 0 ==> r * (|LosingPnLs(trades)| as real) == -Sum(LosingPnLs(trades))
  {
    var ls := LosingPnLs(trades);
    TotalsSigns(trades);
    if |ls| > 0 then Ratio(Abs(Sum(ls)), |ls|) else 0.0
  }

  /** Gross profit over gross loss; 0 when nothing was lost, however much
      was won. */
  function ProfitFactor(trades: seq<Trade>): (pf: real)
    ensures pf >= 0.0
    ensures |LosingPnLs(trades)| > 0 ==> pf * -Sum(LosingPnLs(trades)) == Sum(WinningPnLs(trades))
    ensures |LosingPnLs(trades)| == 0 ==> pf == 0.0
    ensures pf > 0.0 <==> |WinningPnLs(trades)| > 0 && |LosingPnLs(trades)| > 0
  {
    var ws := WinningPnLs(trades);
    var ls := LosingPnLs(trades);
    var totalProfit := Sum(ws);
    var totalLoss := Abs(Sum(ls));
    TotalsSigns(trades);
    if totalLoss > 0.0 then Fraction(totalProfit, totalLoss) else 0.0
  }

  /** Gross profit is positive exactly when some trade won, gross loss
      negative exactly when some trade lost. */
  lemma TotalsSigns(trades: seq<Trade>)
    ensures Sum(WinningPnLs(trades)) >= 0.0
    ensures Sum(WinningPnLs(trades)) > 0.0 <==> |WinningPnLs(trades)| > 0
    ensures Sum(LosingPnLs(trades)) <= 0.0
    ensures Sum(LosingPnLs(trades)) < 0.0 <==> |LosingPnLs(trades)| > 0
  {
    var ws := WinningPnLs(trades);
    var ls := LosingPnLs(trades);
    SumNonNegative(ws);
    SumNonPositive(ls);
    if |ws| > 0 { SumPositive(ws); }
    if |ls| > 0 { SumNegative(ls); }
  }

  // ---------------------------------------------------------------------
  // Risk-adjusted returns
  // ---------------------------------------------------------------------

  const TradingDays: nat := 252
  const RiskFreeRate: real := 0.02

  /** Every element of `xs` is the same. */
  predicate Flat(xs: seq<real>)
  {
    forall i, j :: 0 <= i < |xs| && 0 <= j < |xs| ==> xs[i] == xs[j]
  }

  function SquaredDeviations(xs: seq<real>, m: real): (sq: seq<real>)
    ensures |sq| == |xs|
    ensures forall i :: 0 <= i < |xs| ==> sq[i] == Pow(xs[i] - m, 2)
    ensures forall i :: 0 <= i < |xs| ==> sq[i] >= 0.0
  {
    forall i | 0 <= i < |xs| ensures Pow(xs[i] - m, 2) >= 0.0 {
      SquareSign(xs[i] - m);
    }
    seq(|xs|, i requires 0 <= i < |xs| => Pow(xs[i] - m, 2))
  }

  /** Population variance: mean squared deviation from the mean. */
  function Variance(xs: seq<real>): (v: real)
    requires |xs| > 0
    ensures v >= 0.0
  {
    var sq := SquaredDeviations(xs, Mean(xs));
    SumNonNegative(sq);
    Ratio(Sum(sq), |xs|)
  }

  /** The variance is positive exactly when the returns are not all equal. */
  lemma VariancePositiveIff(xs: seq<real>)
    requires |xs| > 0
    ensures Variance(xs) > 0.0 <==> !Flat(xs)
  {
    var sq := SquaredDeviations(xs, Mean(xs));
    SumNonNegative(sq);
    if Flat(xs) {
      FlatHasNoDeviation(xs);
      SumOfConstant(sq, 0.0);
    } else {
      SomeDeviation(xs, Mean(xs));
      SumZeroIff(sq);
    }
  }

  lemma FlatHasNoDeviation(xs: seq<real>)
    requires |xs| > 0 && Flat(xs)
    ensures forall i :: 0 <= i < |xs| ==> SquaredDeviations(xs, Mean(xs))[i] == 0.0
  {
    MeanOfConstant(xs, xs[0]);
  }

  lemma SomeDeviation(xs: seq<real>, m: real)
    requires !Flat(xs)
    ensures exists k :: 0 <= k < |xs| && SquaredDeviations(xs, m)[k] != 0.0
  {
    var i, j :| 0 <= i < |xs| && 0 <= j < |xs| && xs[i] != xs[j];
    var k := if xs[i] != m then i else j;
    SquareSign(xs[k] - m);
    assert SquaredDeviations(xs, m)[k] == Pow(xs[k] - m, 2);
  }

  /** `Math.pow(1 + mean, 252) - 1`. */
  function AnnualizedReturn(mean: real): real
  {
    Pow(1.0 + mean, TradingDays) - 1.0
  }

  /** A non-negative mean daily return annualizes to a non-negative return,
      a zero mean to zero, and a mean loss of at most 100% to a loss. */
  lemma AnnualizedReturnSign(mean: real)
    ensures mean >= 0.0 ==> AnnualizedReturn(mean) >= 0.0
    ensures mean == 0.0 ==> AnnualizedReturn(mean) == 0.0
    ensures -1.0 <= mean < 0.0 ==> AnnualizedReturn(mean) < 0.0
  {
    if mean >= 0.0 {
      PowAtLeastOne(1.0 + mean, TradingDays);
    }
    if mean == 0.0 {
      PowOfOne(TradingDays);
    }
    if -1.0 <= mean < 0.0 {
      PowBelowOne(1.0 + mean, TradingDays);
    }
  }

  /** calculateSharpeRatio: annualized excess return over annualized
      volatility; 0 for no returns or for returns that never vary. */
  ghost function SharpeRatio(dailyReturns: seq<real>): (s: real)
    ensures s != 0.0 ==> |dailyReturns| > 0 && !Flat(dailyReturns)
    ensures |dailyReturns| > 0 && !Flat(dailyReturns) ==>
      && (s > 0.0 <==> AnnualizedReturn(Mean(dailyReturns)) > RiskFreeRate)
      && (s < 0.0 <==> AnnualizedReturn(Mean(dailyReturns)) < RiskFreeRate)
  {
    if |dailyReturns| == 0 then 0.0
    else
      VariancePositiveIff(dailyReturns);
      var volatility := Sqrt(Variance(dailyReturns) * (TradingDays as real));
      var excess := AnnualizedReturn(Mean(dailyReturns)) - RiskFreeRate;
      if volatility > 0.0 then excess / volatility else 0.0
  }

  /** The negative returns, in order. */
  function Negatives(xs: seq<real>): (ns: seq<real>)
    ensures forall i :: 0 <= i < |ns| ==> ns[i] < 0.0
    ensures |ns| > 0 <==> exists i :: 0 <= i < |xs| && xs[i] < 0.0
  {
    if |xs| == 0 then []
    else
      var init := xs[..|xs| - 1];
      var x := xs[|xs| - 1];
      assert forall i :: 0 <= i < |init| ==> init[i] == xs[i];
      Negatives(init) + (if x < 0.0 then [x] else [])
  }

  function Squares(xs: seq<real>): (sq: seq<real>)
    ensures |sq| == |xs|
    ensures forall i :: 0 <= i < |xs| ==> sq[i] == Pow(xs[i], 2)
  {
    seq(|xs|, i requires 0 <= i < |xs| => Pow(xs[i], 2))
  }

  lemma DownsideSquaresSign(xs: seq<real>)
    ensures Sum(Squares(Negatives(xs))) >= 0.0
    ensures Sum(Squares(Negatives(xs))) > 0.0 <==> |Negatives(xs)| > 0
  {
    var ns := Negatives(xs);
    var sq := Squares(ns);
    forall i | 0 <= i < |sq| ensures sq[i] > 0.0 {
      SquareSign(ns[i]);
    }
    SumNonNegative(sq);
    if |sq| > 0 {
      SumPositive(sq);
    }
  }

  /** Sum of the squared negative returns over the number of ALL returns. */
  function DownsideVariance(xs: seq<real>): (v: real)
    requires |xs| > 0
    ensures v * (|xs| as real) == Sum(Squares(Negatives(xs)))
    ensures v >= 0.0
    ensures v > 0.0 <==> exists i :: 0 <= i < |xs| && xs[i] < 0.0
  {
    var sq := Squares(Negatives(xs));
    DownsideSquaresSign(xs);
    Ratio(Sum(sq), |xs|)
  }

  /** calculateSortinoRatio: annualized excess return over annualized
      downside volatility; 0 for no returns or when no return is negative. */
  ghost function SortinoRatio(dailyReturns: seq<real>): (s: real)
    ensures s != 0.0 ==> exists i :: 0 <= i < |dailyReturns| && dailyReturns[i] < 0.0
    ensures (exists i :: 0 <= i < |dailyReturns| && dailyReturns[i] < 0.0) ==>
      && (s > 0.0 <==> AnnualizedReturn(Mean(dailyReturns)) > RiskFreeRate)
      && (s < 0.0 <==> AnnualizedReturn(Mean(dailyReturns)) < RiskFreeRate)
  {
    if |dailyReturns| == 0 then 0.0
    else
      var downsideVolatility := Sqrt(DownsideVariance(dailyReturns) * (TradingDays as real));
      var excess := AnnualizedReturn(Mean(dailyReturns)) - RiskFreeRate;
      if downsideVolatility > 0.0 then excess / downsideVolatility else 0.0
  }

  /** A strategy that loses on average (by at most 100% a day) and whose
      returns vary has a negative Sharpe ratio and, having a losing day, a
      negative Sortino ratio. */
  lemma LosingMeanGivesNegativeRatios(dailyReturns: seq<real>)
    requires |dailyReturns| > 0
    requires -1.0 <= Mean(dailyReturns) < 0.0
    requires !Flat(dailyReturns)
    ensures SharpeRatio(dailyReturns) < 0.0
    ensures SortinoRatio(dailyReturns) < 0.0
  {
    AnnualizedReturnSign(Mean(dailyReturns));
    assert exists i :: 0 <= i < |dailyReturns| && dailyReturns[i] < 0.0 by {
      if forall i :: 0 <= i < |dailyReturns| ==> dailyReturns[i] >= 0.0 {
        SumNonNegative(dailyReturns);
      }
    }
  }

  // ---------------------------------------------------------------------
  // The report
  // ---------------------------------------------------------------------

  /** The drawdown of every point of a curve. */
  function Drawdowns(curve: seq<EquityPoint>): (ds: seq<real>)
    ensures |ds| == |curve|
    ensures forall i :: 0 <= i < |curve| ==> ds[i] == curve[i].drawdown
  {
    seq(|curve|, i requires 0 <= i < |curve| => curve[i].drawdown)
  }

  /** The return of every point of a curve. */
  function Returns(curve: seq<EquityPoint>): (rs: seq<real>)
    ensures |rs| == |curve|
    ensures forall i :: 0 <= i < |curve| ==> rs[i] == curve[i].periodReturn
  {
    seq(|curve|, i requires 0 <= i < |curve| => curve[i].periodReturn)
  }

  /** The largest drawdown of a curve, 0 for an empty curve. */
  function MaxDrawdown(curve: seq<EquityPoint>): (m: real)
    ensures |curve| == 0 ==> m == 0.0
    ensures forall i :: 0 <= i < |curve| ==> curve[i].drawdown <= m
    ensures |curve| > 0 ==> exists i :: 0 <= i < |curve| && curve[i].drawdown == m
  {
    if |curve| == 0 then 0.0 else MaxOf(Drawdowns(curve))
  }

  /** `Math.max(...drawdowns)` exactly as the source takes it: `-Infinity`
      for an empty curve. */
  function MaxDrawdownAsWritten(curve: seq<EquityPoint>): JsNumber
  {
    if |curve| == 0 then NonFinite else Finite(MaxOf(Drawdowns(curve)))
  }

  /** As written, a backtest without trades reports a non-finite maximum
      drawdown; the guarded version reports 0. */
  lemma NoTradesMaxDrawdown()
    ensures MaxDrawdownAsWritten(EquityCurve([])).NonFinite?
    ensures MaxDrawdown(EquityCurve([])) == 0.0
  {
  }

  /** The maximum drawdown of a trade list's curve is never negative. */
  lemma MaxDrawdownNonNegative(trades: seq<Trade>)
    ensures MaxDrawdown(EquityCurve(trades)) >= 0.0
  {
    if |EquityCurve(trades)| > 0 {
      EquityCurveDrawdown(trades, 0);
    }
  }

  /** `equityCurve.map(point => ({date, drawdown, peak, trough}))`. */
  function DrawdownSeries(curve: seq<EquityPoint>): (ds: seq<DrawdownPoint>)
    ensures |ds| == |curve|
    ensures forall i :: 0 <= i < |curve| ==>
      ds[i] == DrawdownPoint(curve[i].date, curve[i].drawdown, curve[i].peak, curve[i].trough)
  {
    seq(|curve|, i requires 0 <= i < |curve| =>
      DrawdownPoint(curve[i].date, curve[i].drawdown, curve[i].peak, curve[i].trough))
  }

  datatype Metrics = Metrics(
    totalTrades: nat,
    winningTrades: nat,
    losingTrades: nat,
    winRate: real,
    averageWin: real,
    averageLoss: real,
    profitFactor: real,
    maxDrawdown: real,
    sharpeRatio: real,
    sortinoRatio: real,
    equityCurve: seq<EquityPoint>,
    drawdown: seq<DrawdownPoint>)

  /** calculateMetrics. `initialCapital` is accepted and never read. */
  ghost function CalculateMetrics(trades: seq<Trade>, initialCapital: real): (m: Metrics)
    ensures m.totalTrades == |trades|
    ensures m.winningTrades == |WinningPnLs(trades)|
    ensures m.winningTrades + m.losingTrades == m.totalTrades
    ensures m.losingTrades == |LosingPnLs(trades)| + BreakEvenCount(trades)
    ensures m.winRate == WinRate(trades) && 0.0 <= m.winRate <= 1.0
    ensures m.averageWin == AverageWin(trades) && m.averageLoss == AverageLoss(trades)
    ensures m.profitFactor == ProfitFactor(trades)
    ensures m.averageWin >= 0.0 && m.averageLoss >= 0.0 && m.profitFactor >= 0.0
    ensures m.maxDrawdown == MaxDrawdown(m.equityCurve) && m.maxDrawdown >= 0.0
    ensures m.sharpeRatio == SharpeRatio(Returns(m.equityCurve))
    ensures m.sortinoRatio == SortinoRatio(Returns(m.equityCurve))
    ensures m.equityCurve == EquityCurve(trades)
    ensures m.drawdown == DrawdownSeries(m.equityCurve)
    ensures |trades| == 0 ==> m == Metrics(0, 0, 0, 0.0, 0.0, 0.0, 0.0, 0.0, 0.0, 0.0, [], [])
  {
    var curve := EquityCurve(trades);
    var rs := Returns(curve);
    MaxDrawdownNonNegative(trades);
    Metrics(
      |trades|,
      |WinningPnLs(trades)|,
      LosingTrades(trades),
      WinRate(trades),
      AverageWin(trades),
      AverageLoss(trades),
      ProfitFactor(trades),
      MaxDrawdown(curve),
      SharpeRatio(rs),
      SortinoRatio(rs),
      curve,
      DrawdownSeries(curve))
  }

  // ---------------------------------------------------------------------
  // Findings: the divisions of calculateEquityCurve as written
  // ---------------------------------------------------------------------

  /** As written, the first day's return always divides by zero: the equity
      before the first day is 0. */
  lemma FirstReturnDividesByZero(trades: seq<Trade>)
    requires |trades| > 0
    ensures |EquityCurve(trades)| > 0
    ensures ReturnAsWritten(DayPnL(trades, DayKeys(trades)[0]), EquityCurve(trades)[0].equity).NonFinite?
  {
    DayKeysHead(trades);
    EquityCurveStep(trades, 0);
  }

  /** As written, a first day that does not make money divides the drawdown
      by a zero peak. */
  lemma FirstDrawdownDividesByZero(trades: seq<Trade>)
    requires |trades| > 0
    requires DayPnL(trades, KeyOf(trades[0])) <= 0.0
    ensures |EquityCurve(trades)| > 0
    ensures DrawdownAsWritten(EquityCurve(trades)[0].peak, EquityCurve(trades)[0].equity).NonFinite?
  {
    DayKeysHead(trades);
    EquityCurveStep(trades, 0);
  }

  /** The first trade's day is the first day of the curve. */
  lemma {:induction false} DayKeysHead(trades: seq<Trade>)
    requires |trades| > 0
    ensures |DayKeys(trades)| > 0 && DayKeys(trades)[0] == KeyOf(trades[0])
  {
    if |trades| > 1 {
      var init := trades[..|trades| - 1];
      DayKeysHead(init);
      assert init[0] == trades[0];
    }
  }
}
