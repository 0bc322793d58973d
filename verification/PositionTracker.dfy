/** The live tracker of `backend/position_tracker.py`: registration of a fill,
    the six exit conditions in priority order, and the watermark sweep. */
module PositionTracker {
  import opened Money
  import opened Options
  import opened Rounding

  datatype Side = BUY | SELL

  datatype Cross = Above | Below | NoCross

  datatype Reason = HardStop | TrailStop | Ema21Cross | Sma50Cross | RsiExtreme | MacdCross

  /** What one price history says on its last bar. The indicator values are the
      results of library calls on the history and stay abstract; `None` is NaN. */
  datatype Reading = Reading(
    bars: nat,
    close: real,
    atr: Option<real>,
    emaCross: Cross,
    smaCross: Cross,
    rsi: Option<real>,
    macd: Option<(real, real)>)

  datatype OpenPosition = OpenPosition(
    id: string,
    symbol: string,
    side: Side,
    quantity: real,
    entryPrice: real,
    hardStop: real,
    trailMult: real,
    watermark: real,
    pendingOrder: Option<int>,
    attempts: nat,
    lastAttempt: Option<int>)

  /** Hard stop fixed at entry; three per cent when no ATR is known. */
  function HardStopAtEntry(side: Side, entryPrice: real, stopMult: real, atr: real): real {
    if side == SELL then
      if atr > 0.0 then entryPrice + stopMult * atr else entryPrice * 1.03
    else
      if atr > 0.0 then entryPrice - stopMult * atr else entryPrice * 0.97
  }

  /** ATR(14) needs fourteen bars; a missing or NaN value counts as zero. */
  function AtrAtEntry(r: Reading): real {
    if r.bars >= 14 && r.atr.Some? then r.atr.value else 0.0
  }

  /** `register_position`: refuses a fill without a positive price. */
  function RegisterPosition(id: string, symbol: string, side: Side, quantity: real, fillPrice: real,
                            history: Reading, stopMult: real, trailMult: real): (p: Option<OpenPosition>)
    ensures p.Some? <==> fillPrice > 0.0
    ensures p.Some? ==> p.value.watermark == p.value.entryPrice == fillPrice && p.value.attempts == 0
    ensures p.Some? ==> p.value.hardStop == Round4(HardStopAtEntry(side, fillPrice, stopMult, AtrAtEntry(history)))
    ensures p.Some? ==> p.value.pendingOrder.None? && p.value.lastAttempt.None?
    ensures p.Some? ==> p.value.id == id && p.value.symbol == symbol && p.value.side == side
    ensures p.Some? ==> p.value.quantity == quantity && p.value.trailMult == trailMult
  {
    if fillPrice <= 0.0 then None
    else Some(OpenPosition(id, symbol, side, quantity, fillPrice,
                           Round4(HardStopAtEntry(side, fillPrice, stopMult, AtrAtEntry(history))),
                           trailMult, fillPrice, None, 0, None))
  }

  /** How far the trail runs behind the watermark. */
  function TrailDistance(trailMult: real, atr: real): real { trailMult * atr }

  /** `compute_trail_stop`. */
  function ComputeTrailStop(pos: OpenPosition, atr: real): real {
    if pos.side == BUY then Round4(pos.watermark - TrailDistance(pos.trailMult, atr))
    else Round4(pos.watermark + TrailDistance(pos.trailMult, atr))
  }

  predicate HardStopHit(side: Side, hardStop: real, price: real) {
    if side == BUY then price <= hardStop else price >= hardStop
  }

  predicate TrailStopHit(pos: OpenPosition, r: Reading) {
    r.bars >= 14 && r.atr.Some? &&
    var trail := ComputeTrailStop(pos, r.atr.value);
    if pos.side == BUY then r.close <= Max(pos.hardStop, trail)
    else r.close >= Min(pos.hardStop, trail)
  }

  predicate CrossHit(side: Side, needed: nat, bars: nat, cross: Cross) {
    bars >= needed && cross == (if side == BUY then Below else Above)
  }

  predicate RsiHit(side: Side, r: Reading) {
    r.bars >= 30 && r.rsi.Some? && if side == BUY then r.rsi.value > 70.0 else r.rsi.value < 30.0
  }

  predicate MacdHit(side: Side, r: Reading) {
    r.bars >= 35 && r.macd.Some? &&
    var (prev, curr) := r.macd.value;
    if side == BUY then prev >= 0.0 && curr < 0.0 else prev <= 0.0 && curr > 0.0
  }

  /** The conditions below the two stops, shared by both programs. */
  function IndicatorExit(side: Side, r: Reading): Option<Reason> {
    if CrossHit(side, 21, r.bars, r.emaCross) then Some(Ema21Cross)
    else if CrossHit(side, 50, r.bars, r.smaCross) then Some(Sma50Cross)
    else if RsiHit(side, r) then Some(RsiExtreme)
    else if MacdHit(side, r) then Some(MacdCross)
    else None
  }

  /** `check_exits`: the first condition that fires, in priority order. */
  function CheckExits(pos: OpenPosition, r: Reading): Option<Reason> {
    if r.bars < 2 then None
    else if HardStopHit(pos.side, pos.hardStop, r.close) then Some(HardStop)
    else if TrailStopHit(pos, r) then Some(TrailStop)
    else IndicatorExit(pos.side, r)
  }

  /** The price has moved in the position's favour since the last look. */
  predicate Favourable(pos: OpenPosition, price: real) {
    if pos.side == BUY then price > pos.watermark else price < pos.watermark
  }

  /** The watermark a position should carry after seeing `price`. */
  function Raised(pos: OpenPosition, price: real): (p: OpenPosition)
    ensures pos.side == BUY ==> p.watermark == Max(pos.watermark, price)
    ensures pos.side == SELL ==> p.watermark == Min(pos.watermark, price)
    ensures p == pos.(watermark := p.watermark)
  {
    if Favourable(pos, price) then pos.(watermark := price) else pos
  }

  /** A position's close is known when a non-empty history was fetched for it. */
  predicate Priced(pos: OpenPosition, market: map<string, Reading>) {
    pos.symbol in market && market[pos.symbol].bars > 0
  }

  predicate Moved(pos: OpenPosition, market: map<string, Reading>) {
    Priced(pos, market) && Favourable(pos, market[pos.symbol].close)
  }

  /** `update_watermarks`: copies of exactly the positions that moved, in order. */
  method UpdateWatermarks(positions: seq<OpenPosition>, market: map<string, Reading>)
    returns (updated: seq<OpenPosition>)
    ensures updated == MovedCopies(positions, market)
  {
    updated := [];
    for i := 0 to |positions|
      invariant updated == MovedCopies(positions[..i], market)
    {
      var pos := positions[i];
      OneMoreCopy(positions, i, market);
      if Priced(pos, market) {
        var price := market[pos.symbol].close;
        if pos.side == BUY && price > pos.watermark {
          updated := updated + [pos.(watermark := price)];
        } else if pos.side == SELL && price < pos.watermark {
          updated := updated + [pos.(watermark := price)];
        }
      }
    }
    assert positions[..|positions|] == positions;
  }

  function MovedCopies(positions: seq<OpenPosition>, market: map<string, Reading>): seq<OpenPosition> {
    if positions == [] then []
    else
      var init, last := positions[..|positions| - 1], positions[|positions| - 1];
      MovedCopies(init, market) +
      if Moved(last, market) then [Raised(last, market[last.symbol].close)] else []
  }

  lemma {:induction false} OneMoreCopy(positions: seq<OpenPosition>, i: nat, market: map<string, Reading>)
    requires i < |positions|
    ensures MovedCopies(positions[..i + 1], market)
         == MovedCopies(positions[..i], market)
            + if Moved(positions[i], market) then [Raised(positions[i], market[positions[i].symbol].close)] else []
  {
    assert positions[..i + 1][..i] == positions[..i];
  }

  /** A saved copy belongs to a listed position that moved, and every such position has one. */
  lemma {:induction false} MovedCopiesExactly(
      positions: seq<OpenPosition>, market: map<string, Reading>, c: OpenPosition)
    ensures c in MovedCopies(positions, market) <==>
            exists p :: p in positions && Moved(p, market) && c == Raised(p, market[p.symbol].close)
  {
    if positions == [] {
    } else {
      var init, last := positions[..|positions| - 1], positions[|positions| - 1];
      assert positions == init + [last];
      MovedCopiesExactly(init, market, c);
    }
  }
}
