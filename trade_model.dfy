/** A persisted trade: its schema constraints and the pre-save hook that
    stamps the update time and computes the profit or loss of a closed trade. */
module TradeModel {
  import opened Values
  import opened Numeric

  const TradeTypes: set<string> := {"LONG", "SHORT"}
  const TradeStatuses: set<string> := {"OPEN", "CLOSED", "CANCELLED"}

  /** The stored fields of a trade document (the free-form `metadata` map is
      not modelled). Times are milliseconds since the epoch. `status` is
      `None` once a caller has assigned `undefined` to it. */
  datatype TradeRecord = TradeRecord(
    strategy: string,
    symbol: string,
    kind: string,
    entryPrice: real,
    exitPrice: Option<real>,
    quantity: real,
    status: Option<string>,
    entryTime: int,
    exitTime: Option<int>,
    profitLoss: Option<real>,
    profitLossPercentage: Option<JsNumber>,
    aiConfidence: Option<real>,
    stopLoss: Option<real>,
    takeProfit: Option<real>,
    riskRewardRatio: Option<JsNumber>,
    createdAt: int,
    updatedAt: int)

  /** The schema's validators: a non-empty `symbol` (a required string
      rejects ""), `type` and `status` from their enumerations (an absent
      status is not checked) and `aiConfidence` within [0, 1].
      On a valid trade the `-1` branch of the multiplier means `SHORT`. */
  predicate SchemaValid(rec: TradeRecord): (ok: bool)
    ensures ok ==> rec.symbol != ""
    ensures ok ==> rec.kind == "LONG" || rec.kind == "SHORT"
    ensures ok ==> (rec.kind == "SHORT" <==> Multiplier(rec.kind) == -1.0)
    ensures ok && rec.status.Some? ==> rec.status.value in {"OPEN", "CLOSED", "CANCELLED"}
    ensures ok && rec.aiConfidence.Some? ==> 0.0 <= rec.aiConfidence.value <= 1.0
  {
    && rec.symbol != ""
    && rec.kind in TradeTypes
    && (rec.status.Some? ==> rec.status.value in TradeStatuses)
    && (rec.aiConfidence.Some? ==> 0.0 <= rec.aiConfidence.value <= 1.0)
  }

  /** 1 for a long trade, -1 otherwise. */
  function Multiplier(kind: string): real
  {
    if kind == "LONG" then 1.0 else -1.0
  }

  /** The result of a closed trade: the price move times the quantity,
      earned on a rise by a long trade and on a fall by any other. */
  function ProfitLoss(kind: string, entryPrice: real, exitPrice: real, quantity: real): (pl: real)
    ensures kind == "LONG" ==> pl == (exitPrice - entryPrice) * quantity
    ensures kind != "LONG" ==> pl == (entryPrice - exitPrice) * quantity
  {
    (exitPrice - entryPrice) * quantity * Multiplier(kind)
  }

  /** The profit or loss as a percentage of the entry cost; not finite when
      the entry cost is 0. */
  function ProfitLossPercentage(profitLoss: real, entryPrice: real, quantity: real): (pct: JsNumber)
    ensures pct.Finite? <==> entryPrice * quantity != 0.0
  {
    Scale(Quotient(profitLoss, entryPrice * quantity), 100.0)
  }

  /** The hook computes a result only for a closed trade with a truthy exit
      price; an exit price of 0 counts as missing. */
  predicate Settles(rec: TradeRecord)
  {
    rec.status == Some("CLOSED") && TruthyNumber(rec.exitPrice)
  }

  /** The pre-save hook at time `now`. */
  function PreSave(rec: TradeRecord, now: int): (r: TradeRecord)
    ensures r.updatedAt == now
    ensures r.(updatedAt := rec.updatedAt, profitLoss := rec.profitLoss,
               profitLossPercentage := rec.profitLossPercentage) == rec
  {
    if Settles(rec) then
      var pl := ProfitLoss(rec.kind, rec.entryPrice, rec.exitPrice.value, rec.quantity);
      rec.(updatedAt := now, profitLoss := Some(pl),
           profitLossPercentage := Some(ProfitLossPercentage(pl, rec.entryPrice, rec.quantity)))
    else rec.(updatedAt := now)
  }

  /** What the hook does to the result fields: set from the prices when the
      trade settles, left exactly as they were otherwise. */
  lemma PreSaveResult(rec: TradeRecord, now: int)
    ensures Settles(rec) ==>
      && PreSave(rec, now).profitLoss == Some(ProfitLoss(rec.kind, rec.entryPrice, rec.exitPrice.value, rec.quantity))
      && PreSave(rec, now).profitLossPercentage ==
         Some(ProfitLossPercentage(PreSave(rec, now).profitLoss.value, rec.entryPrice, rec.quantity))
    ensures !Settles(rec) ==> PreSave(rec, now) == rec.(updatedAt := now)
  {
  }

  /** Saving twice at the same time is the same as saving once. */
  lemma PreSaveIdempotent(rec: TradeRecord, now: int)
    ensures PreSave(PreSave(rec, now), now) == PreSave(rec, now)
  {
  }

  /** The hook touches no validated field. */
  lemma PreSaveKeepsSchema(rec: TradeRecord, now: int)
    ensures SchemaValid(PreSave(rec, now)) <==> SchemaValid(rec)
  {
  }

  /** For the same prices and quantity a short trade's result is the negation
      of a long trade's, and a trade closed at its entry price breaks even. */
  lemma ProfitLossSymmetric(entryPrice: real, exitPrice: real, quantity: real)
    ensures ProfitLoss("SHORT", entryPrice, exitPrice, quantity) == -ProfitLoss("LONG", entryPrice, exitPrice, quantity)
    ensures ProfitLoss("LONG", entryPrice, entryPrice, quantity) == 0.0
    ensures ProfitLoss("SHORT", entryPrice, entryPrice, quantity) == 0.0
  {
  }

  /** With a positive quantity a long trade profits exactly when the exit
      price is above the entry price, a short trade exactly when it is below. */
  lemma ProfitDirection(entryPrice: real, exitPrice: real, quantity: real)
    requires quantity > 0.0
    ensures ProfitLoss("LONG", entryPrice, exitPrice, quantity) > 0.0 <==> exitPrice > entryPrice
    ensures ProfitLoss("SHORT", entryPrice, exitPrice, quantity) > 0.0 <==> exitPrice < entryPrice
  {
    var d := exitPrice - entryPrice;
    if d > 0.0 {
      assert d * quantity > 0.0;
    } else {
      assert (-d) * quantity >= 0.0;
    }
  }

  /** The percentage does not depend on the quantity: it is the price move
      relative to the entry price, times 100, signed by the trade type. */
  lemma PercentageIsPriceMove(kind: string, entryPrice: real, exitPrice: real, quantity: real)
    requires entryPrice != 0.0 && quantity != 0.0
    ensures var pct := ProfitLossPercentage(ProfitLoss(kind, entryPrice, exitPrice, quantity), entryPrice, quantity);
      pct.Finite? && pct.value * entryPrice == (exitPrice - entryPrice) * Multiplier(kind) * 100.0
  {
    var pl := ProfitLoss(kind, entryPrice, exitPrice, quantity);
    var k := Quotient(pl, entryPrice * quantity).value;
    var move := (exitPrice - entryPrice) * Multiplier(kind);
    assert k * (entryPrice * quantity) == pl;
    assert pl == move * quantity;
    assert (k * entryPrice) * quantity == move * quantity;
    CancelFactor(k * entryPrice, move, quantity);
    assert (k * 100.0) * entryPrice == (k * entryPrice) * 100.0;
  }

  /** A trade document whose fields the hook and the controller update in place. */
  class TradeDocument {
    var strategy: string
    var symbol: string
    var kind: string
    var entryPrice: real
    var exitPrice: Option<real>
    var quantity: real
    var status: Option<string>
    var entryTime: int
    var exitTime: Option<int>
    var profitLoss: Option<real>
    var profitLossPercentage: Option<JsNumber>
    var aiConfidence: Option<real>
    var stopLoss: Option<real>
    var takeProfit: Option<real>
    var riskRewardRatio: Option<JsNumber>
    var createdAt: int
    var updatedAt: int

    function Snapshot(): TradeRecord
      reads this
    {
      TradeRecord(strategy, symbol, kind, entryPrice, exitPrice, quantity, status, entryTime, exitTime,
        profitLoss, profitLossPercentage, aiConfidence, stopLoss, takeProfit, riskRewardRatio,
        createdAt, updatedAt)
    }

    /** `new Trade({...})` at time `now`: the schema defaults fill the status
        ('OPEN') and the entry, creation and update times. */
    constructor(strategy: string, symbol: string, kind: string, entryPrice: real, quantity: real,
                stopLoss: Option<real>, takeProfit: Option<real>, riskRewardRatio: Option<JsNumber>,
                aiConfidence: Option<real>, status: Option<string>, now: int)
      ensures Snapshot() == TradeRecord(strategy, symbol, kind, entryPrice, None, quantity,
        if status.Some? then status else Some("OPEN"), now, None, None, None, aiConfidence,
        stopLoss, takeProfit, riskRewardRatio, now, now)
    {
      this.strategy := strategy;
      this.symbol := symbol;
      this.kind := kind;
      this.entryPrice := entryPrice;
      this.exitPrice := None;
      this.quantity := quantity;
      this.status := if status.Some? then status else Some("OPEN");
      this.entryTime := now;
      this.exitTime := None;
      this.profitLoss := None;
      this.profitLossPercentage := None;
      this.aiConfidence := aiConfidence;
      this.stopLoss := stopLoss;
      this.takeProfit := takeProfit;
      this.riskRewardRatio := riskRewardRatio;
      this.createdAt := now;
      this.updatedAt := now;
    }

    /** `save()` at time `now`: validation first, which leaves the document
        untouched when it fails, then the pre-save hook. */
    method Save(now: int) returns (r: Result<(), string>)
      modifies this
      ensures !SchemaValid(old(Snapshot())) ==> r.Failure? && Snapshot() == old(Snapshot())
      ensures SchemaValid(old(Snapshot())) ==> r.Success? && Snapshot() == PreSave(old(Snapshot()), now)
      ensures r.Success? ==> SchemaValid(Snapshot())
    {
      if !SchemaValid(Snapshot()) {
        return Failure("ValidationError");
      }
      ghost var before := Snapshot();
      updatedAt := now;
      if status == Some("CLOSED") && TruthyNumber(exitPrice) {
        assert Settles(before);
        var multiplier := if kind == "LONG" then 1.0 else -1.0;
        var pl := (exitPrice.value - entryPrice) * quantity * multiplier;
        assert pl == ProfitLoss(kind, entryPrice, exitPrice.value, quantity);
        profitLoss := Some(pl);
        profitLossPercentage := Some(ProfitLossPercentage(pl, entryPrice, quantity));
        assert Snapshot() == before.(updatedAt := now, profitLoss := Some(pl),
          profitLossPercentage := Some(ProfitLossPercentage(pl, before.entryPrice, before.quantity)));
      } else {
        assert !Settles(before);
        assert Snapshot() == before.(updatedAt := now);
      }
      assert Snapshot() == PreSave(before, now);
      PreSaveKeepsSchema(before, now);
      r := Success(());
    }
  }
}
