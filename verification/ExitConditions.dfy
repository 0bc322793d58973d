/** What makes a position exit, reason by reason, and how the two sides mirror each other. */
module ExitConditions {
  import opened Money
  import opened Options
  import opened Rounding
  import opened PositionTracker
  import opened ExitParity

  /** The reasons in the order in which they are looked for. */
  function Place(reason: Reason): nat {
    match reason
    case HardStop => 1
    case TrailStop => 2
    case Ema21Cross => 3
    case Sma50Cross => 4
    case RsiExtreme => 5
    case MacdCross => 6
  }

  /** What each reason asks of a long: the close at or under the hard stop; at or under the
      watermark less the multiple of the ATR, at four decimals; a cross below an average;
      RSI above 70; the MACD histogram turning negative. Each needs its bars. */
  predicate LongFires(pos: OpenPosition, r: Reading, reason: Reason) {
    match reason
    case HardStop => r.close <= pos.hardStop
    case TrailStop =>
      r.bars >= 14 && r.atr.Some? && r.close <= Round4(pos.watermark - Product(pos.trailMult, r.atr.value))
    case Ema21Cross => r.bars >= 21 && r.emaCross == Below
    case Sma50Cross => r.bars >= 50 && r.smaCross == Below
    case RsiExtreme => r.bars >= 30 && r.rsi.Some? && r.rsi.value > 70.0
    case MacdCross => r.bars >= 35 && r.macd.Some? && r.macd.value.0 >= 0.0 > r.macd.value.1
  }

  /** A long reports a reason exactly when there are two bars, the reason fires, and none
      before it does. */
  lemma {:induction false} LongExitsIff(pos: OpenPosition, r: Reading, reason: Reason)
    requires pos.side == BUY
    ensures CheckExits(pos, r) == Some(reason)
       <==> r.bars >= 2 && LongFires(pos, r, reason)
            && forall other :: Place(other) < Place(reason) ==> !LongFires(pos, r, other)
  {
    FiresAre(pos, r);
    match reason {
      case HardStop =>
        assert forall other :: Place(other) >= Place(HardStop);
      case TrailStop =>
        assert Place(HardStop) < Place(TrailStop);
      case Ema21Cross =>
        assert Place(HardStop) < Place(TrailStop) < Place(Ema21Cross);
      case Sma50Cross =>
        assert Place(HardStop) < Place(TrailStop) < Place(Ema21Cross) < Place(Sma50Cross);
      case RsiExtreme =>
        assert Place(HardStop) < Place(TrailStop) < Place(Ema21Cross) < Place(Sma50Cross) < Place(RsiExtreme);
      case MacdCross =>
        assert Place(HardStop) < Place(TrailStop) < Place(Ema21Cross) < Place(Sma50Cross) < Place(RsiExtreme)
            < Place(MacdCross);
    }
  }

  lemma {:induction false} FiresAre(pos: OpenPosition, r: Reading)
    requires pos.side == BUY
    ensures LongFires(pos, r, HardStop) <==> HardStopHit(BUY, pos.hardStop, r.close)
    ensures !HardStopHit(BUY, pos.hardStop, r.close) ==> (LongFires(pos, r, TrailStop) <==> TrailStopHit(pos, r))
    ensures LongFires(pos, r, Ema21Cross) <==> CrossHit(BUY, 21, r.bars, r.emaCross)
    ensures LongFires(pos, r, Sma50Cross) <==> CrossHit(BUY, 50, r.bars, r.smaCross)
    ensures LongFires(pos, r, RsiExtreme) <==> RsiHit(BUY, r)
    ensures LongFires(pos, r, MacdCross) <==> MacdHit(BUY, r)
  {
    if r.close > pos.hardStop { TrailFires(pos, r); }
  }

  lemma {:induction false} TrailFires(pos: OpenPosition, r: Reading)
    requires pos.side == BUY && r.close > pos.hardStop
    ensures LongFires(pos, r, TrailStop) <==> TrailStopHit(pos, r)
  {
    if r.atr.Some? { DistanceIs(pos.trailMult, r.atr.value); }
  }

  lemma {:induction false} DistanceIs(mult: real, atr: real)
    ensures TrailDistance(mult, atr) == Product(mult, atr)
  {
  }

  // ------------------------------------------------------------------ the other side

  function Turned(c: Cross): Cross {
    match c
    case Above => Below
    case Below => Above
    case NoCross => NoCross
  }

  /** The market upside down: negated prices, crosses and the histogram turned round, and RSI
      measured from the other end. */
  function Mirrored(r: Reading): Reading {
    r.(close := -r.close, emaCross := Turned(r.emaCross), smaCross := Turned(r.smaCross),
       rsi := if r.rsi.Some? then Some(100.0 - r.rsi.value) else None,
       macd := if r.macd.Some? then Some((-r.macd.value.0, -r.macd.value.1)) else None)
  }

  function OtherSide(pos: OpenPosition): OpenPosition {
    pos.(side := if pos.side == BUY then SELL else BUY, entryPrice := -pos.entryPrice,
         hardStop := -pos.hardStop, watermark := -pos.watermark)
  }

  lemma {:induction false} RoundIntTurns(x: real)
    ensures RoundInt(-x) == -RoundInt(x)
  {
    var m, n := RoundInt(x), RoundInt(-x);
    if m + n != 0 {
      Neighbours(m, n, x);
    }
  }

  /** Two different nearest integers of one number are one apart, so not both even. */
  lemma {:induction false} Neighbours(m: int, n: int, x: real)
    requires m + n != 0
    requires x - 0.5 <= m as real <= x + 0.5 && -x - 0.5 <= n as real <= -x + 0.5
    ensures m as real == x + 0.5 || m as real == x - 0.5
    ensures n as real == -x + 0.5 || n as real == -x - 0.5
    ensures (m + n) % 2 != 0
  {
    assert -1.0 <= (m + n) as real <= 1.0;
  }

  lemma {:induction false} Round4Turns(x: real)
    ensures Round4(-x) == -Round4(x)
  {
    RoundIntTurns(x * 10000.0);
    assert -x * 10000.0 == -(x * 10000.0);
  }

  lemma {:induction false} TrailsMirror(pos: OpenPosition, r: Reading)
    ensures TrailStopHit(OtherSide(pos), Mirrored(r)) == TrailStopHit(pos, r)
  {
    if r.atr.Some? {
      var behind := TrailDistance(pos.trailMult, r.atr.value);
      Round4Turns(pos.watermark - behind);
      Round4Turns(pos.watermark + behind);
    }
  }

  /** A short is a long in the mirrored market: it exits on the same reading for the same
      reason. */
  lemma {:induction false} ShortMirrorsLong(pos: OpenPosition, r: Reading)
    ensures CheckExits(OtherSide(pos), Mirrored(r)) == CheckExits(pos, r)
  {
    TrailsMirror(pos, r);
  }

  /** The watermark is mirrored too, and so are the hard stops with a known ATR. */
  lemma {:induction false} WatermarkMirrors(pos: OpenPosition, price: real)
    ensures Raised(OtherSide(pos), -price) == OtherSide(Raised(pos, price))
  {
  }

  /** The hard stop of a new position, for either side: the multiple of the ATR away from the
      fill on the losing side, or three per cent when no ATR is known. */
  lemma {:induction false} HardStopAtDistance(side: Side, fill: real, stopMult: real, history: Reading)
    ensures var atr := if history.bars >= 14 && history.atr.Some? then history.atr.value else 0.0;
            var away := if atr > 0.0 then stopMult * atr else fill * 0.03;
            HardStopAtEntry(side, fill, stopMult, AtrAtEntry(history)) == if side == SELL then fill + away else fill - away
  {
  }

  /** The mirrored checks of the backtester are those of the tracker. */
  lemma {:induction false} BacktestChecksAreTracked(pos: OpenPosition, r: Reading)
    requires r.bars >= 2
    ensures CheckAtrExits(r, pos.hardStop, pos.watermark, pos.trailMult, pos.side) == CheckExits(pos, r)
  {
  }
}
