/** The trades of a complete run in the terms of its bars and settings: when a position opens,
    how large it is, what closes it and what that leaves. */
module BacktesterTrades {
  import opened Money
  import opened Options
  import opened PositionTracker
  import opened ExitParity
  import opened Backtester
  import opened BacktesterTheorems

  // ------------------------------------------------------------------ size

  /** The bar from which the account can enter after the first k trades. */
  function FlatFrom(warmup: nat, trades: seq<Trade>, k: nat): nat
    requires k <= |trades|
  {
    if k == 0 then warmup else trades[k - 1].exitBar + 1
  }

  /** The account is flat when bar j comes up, k trades behind it. */
  predicate FlatAt(warmup: nat, trades: seq<Trade>, k: nat, j: nat) {
    && k <= |trades| && FlatFrom(warmup, trades, k) <= j
    && (k < |trades| ==> j <= trades[k].entryBar)
  }

  /** The entry conditions hold of the bars so far, of which there are two at least. */
  predicate EntryMet(c: Config, bars: seq<Bar>, j: nat)
    requires j < |bars|
  {
    j >= 1 && c.entry(bars[..j + 1])
  }

  lemma {:induction false} FloorIsLargest(x: real, n: int)
    ensures n <= x.Floor <==> n as real <= x
  {
  }

  /** Whole shares that a part of the cash pays for. */
  lemma {:induction false} SharesFit(pct: real, cash: real, price: real, n: int)
    requires price > 0.0
    ensures n <= Quotient(Share(pct, cash), price).Floor <==> 100.0 * n as real * price <= pct * cash
  {
    var part := Share(pct, cash);
    var q := Quotient(part, price);
    FloorIsLargest(q, n);
    assert Product(q, price) == part;
    HundredthsOf(pct, cash);
    if n as real <= q { ProductMonotone(n as real, q, price); } else { ProductStrict(q, n as real, price); }
    Hundredfold(n as real, price);
  }

  lemma {:induction false} HundredthsOf(pct: real, cash: real)
    ensures 100.0 * Share(pct, cash) == pct * cash
  {
  }

  lemma {:induction false} Hundredfold(n: real, price: real)
    ensures 100.0 * n * price == 100.0 * Product(n, price)
  {
  }

  /** The entry quantity is the largest whole number of shares that the size percentage of
      the cash pays for, and none without a met condition or a positive close. */
  lemma {:induction false} QtyIsLargest(c: Config, bars: seq<Bar>, j: nat, cash: real, n: nat)
    requires j < |bars| && n >= 1
    ensures n <= EntryQty(c, bars, j, cash)
       <==> EntryMet(c, bars, j) && bars[j].close > 0.0 && 100.0 * n as real * bars[j].close <= c.sizePct * cash
  {
    if bars[j].close > 0.0 { SharesFit(c.sizePct, cash, bars[j].close, n); }
  }

  lemma {:induction false} FlatFromIsFree(warmup: nat, trades: seq<Trade>, k: nat)
    requires k <= |trades|
    ensures FreeFrom(warmup, trades[..k]) == FlatFrom(warmup, trades, k)
  {
  }

  /** Every trade of a complete run, the forced one included: it is opened at the close of a
      bar on which the entry is met, with the largest whole number of shares that the size
      percentage of the cash left by the trades before it pays for. */
  lemma {:induction false} TradeSize(
      c: Config, bars: seq<Bar>, warmup: nat, trades: seq<Trade>, k: nat, n: nat)
    requires CompleteRun(c, bars, warmup, trades) && k < |trades| && n >= 1
    ensures var t := trades[k];
            && t.entryBar < |bars| && EntryMet(c, bars, t.entryBar) && t.qty >= 1
            && t.entryPrice == bars[t.entryBar].close > 0.0
            && (n <= t.qty <==> 100.0 * n as real * t.entryPrice <= c.sizePct * CashAfter(c, trades[..k]))
  {
    OpenedInRun(c, bars, warmup, trades, k);
    OpenedSize(c, bars, warmup, trades[..k], trades[k].entryBar, trades[k].qty, n);
  }

  lemma {:induction false} OpenedInRun(c: Config, bars: seq<Bar>, warmup: nat, trades: seq<Trade>, k: nat)
    requires CompleteRun(c, bars, warmup, trades) && k < |trades|
    ensures var t := trades[k];
            && t.entryBar < |bars| && t.entryPrice == bars[t.entryBar].close
            && Opened(c, bars, warmup, trades[..k], t.entryBar, t.qty)
  {
    TradeOfRun(c, bars, warmup, trades, k);
  }

  lemma {:induction false} OpenedSize(
      c: Config, bars: seq<Bar>, warmup: nat, trades: seq<Trade>, e: nat, qty: nat, n: nat)
    requires e < |bars| && Opened(c, bars, warmup, trades, e, qty) && n >= 1
    ensures EntryMet(c, bars, e) && qty >= 1 && bars[e].close > 0.0
    ensures n <= qty <==> 100.0 * n as real * bars[e].close <= c.sizePct * CashAfter(c, trades)
  {
    QtyIsLargest(c, bars, e, CashAfter(c, trades), 1);
    QtyIsLargest(c, bars, e, CashAfter(c, trades), n);
  }

  /** A flat account enters on a bar exactly when the entry is met there and the size
      percentage of its cash pays for one share at a positive close. */
  lemma {:induction false} EntersIff(
      c: Config, bars: seq<Bar>, warmup: nat, trades: seq<Trade>, k: nat, j: nat)
    requires CompleteRun(c, bars, warmup, trades) && j < |bars| && FlatAt(warmup, trades, k, j)
    requires k > 0 ==> trades[k - 1].reason != EndOfData
    ensures k < |trades| && trades[k].entryBar == j
       <==> EntryMet(c, bars, j) && bars[j].close > 0.0
            && 100.0 * bars[j].close <= c.sizePct * CashAfter(c, trades[..k])
  {
    var cash := CashAfter(c, trades[..k]);
    FlatFromIsFree(warmup, trades, k);
    QtyIsLargest(c, bars, j, cash, 1);
    if k < |trades| {
      TradeOfRun(c, bars, warmup, trades, k);
      assert IdleFrom(c, bars, FreeFrom(warmup, trades[..k]), trades[k].entryBar, cash);
    } else {
      assert trades[..k] == trades;
      RegularPart(c, bars, warmup, trades);
    }
  }

  /** Cash moves by the price difference on every share, less two commissions a trade. */
  lemma {:induction false} CashMoves(c: Config, trades: seq<Trade>, k: nat)
    requires k < |trades|
    ensures CashAfter(c, trades[..0]) == c.initial
    ensures var t := trades[k];
            CashAfter(c, trades[..k + 1])
              == CashAfter(c, trades[..k]) + t.qty as real * (t.exitPrice - t.entryPrice) - 2.0 * c.commission
  {
    assert trades[..k + 1][..k] == trades[..k];
  }

  // ------------------------------------------------------------------ equity

  /** Trades that open after bar i leave the equity of bar i alone. */
  lemma {:induction false} LaterTradesSkipped(c: Config, bars: seq<Bar>, trades: seq<Trade>, m: nat, i: nat)
    requires i < |bars| && m <= |trades| && forall j :: m <= j < |trades| ==> i < trades[j].entryBar
    ensures EquityOn(c, bars, trades, i) == EquityOn(c, bars, trades[..m], i)
    decreases |trades|
  {
    if m < |trades| {
      var init := trades[..|trades| - 1];
      LaterTradesSkipped(c, bars, init, m, i);
      assert init[..m] == trades[..m];
    } else {
      assert trades[..m] == trades;
    }
  }

  lemma {:induction false} LaterTradesOpenLater(
      c: Config, bars: seq<Bar>, warmup: nat, trades: seq<Trade>, k: nat, i: nat)
    requires CompleteRun(c, bars, warmup, trades) && k <= |trades| && i < |bars|
    requires k < |trades| ==> i < trades[k].entryBar
    ensures forall j :: k <= j < |trades| ==> i < trades[j].entryBar
  {
    TradesOrdered(c, bars, warmup, trades);
  }

  /** The equity of a bar on which trade k is open: the cash of the trades before it, less what
      it cost with one commission, with its shares at the close. */
  lemma {:induction false} EquityWhileOpen(
      c: Config, bars: seq<Bar>, warmup: nat, trades: seq<Trade>, k: nat, i: nat)
    requires CompleteRun(c, bars, warmup, trades) && k < |trades| && i < |bars| && trades[k].entryBar <= i
    requires i < trades[k].exitBar || trades[k].reason == EndOfData
    ensures var t := trades[k];
            EquityOn(c, bars, trades, i)
              == CashAfter(c, trades[..k]) - Value(t.qty, t.entryPrice) - c.commission + Value(t.qty, bars[i].close)
  {
    TradesOrdered(c, bars, warmup, trades);
    if trades[k].reason == EndOfData { ForcedTradeExits(c, bars, warmup, trades, k); }
    var upTo := trades[..k + 1];
    LaterTradesOpenLater(c, bars, warmup, trades, k + 1, i);
    LaterTradesSkipped(c, bars, trades, k + 1, i);
    assert upTo[..k] == trades[..k] && upTo[k] == trades[k];
  }

  /** The equity of a bar on which the account is flat after it: the cash. */
  lemma {:induction false} EquityWhileFlat(
      c: Config, bars: seq<Bar>, warmup: nat, trades: seq<Trade>, k: nat, i: nat)
    requires CompleteRun(c, bars, warmup, trades) && k <= |trades| && i < |bars|
    requires k > 0 ==> trades[k - 1].exitBar <= i && trades[k - 1].reason != EndOfData
    requires k < |trades| ==> i < trades[k].entryBar
    ensures EquityOn(c, bars, trades, i) == CashAfter(c, trades[..k])
  {
    LaterTradesOpenLater(c, bars, warmup, trades, k, i);
    LaterTradesSkipped(c, bars, trades, k, i);
    if k > 0 {
      TradesOrdered(c, bars, warmup, trades);
      assert trades[..k][k - 1] == trades[k - 1];
    }
  }

  /** A trade record shows prices and profit to the cent, both commissions taken off. */
  lemma {:induction false} ShownToTheCent(c: Config, t: Trade)
    ensures var (entry, exit, pnl) := Shown(c, t);
            && -0.005 <= entry - t.entryPrice <= 0.005 && -0.005 <= exit - t.exitPrice <= 0.005
            && -0.005 <= pnl - (Value(t.qty, t.exitPrice) - Value(t.qty, t.entryPrice) - 2.0 * c.commission) <= 0.005
  {
  }

  // ------------------------------------------------------------------ exit

  /** A stop or a target at its percentage from the entry. */
  function LevelAt(entryPrice: real, pct: real): real { entryPrice + entryPrice * pct / 100.0 }

  /** The low reaches a stop that is set, and the stop lies above zero. */
  predicate StopTouched(c: Config, bar: Bar, entryPrice: real) {
    var level := LevelAt(entryPrice, -c.stopLossPct);
    c.stopLossPct > 0.0 && level > 0.0 && bar.low <= level
  }

  predicate TargetTouched(c: Config, bar: Bar, entryPrice: real) {
    var level := LevelAt(entryPrice, c.takeProfitPct);
    c.takeProfitPct > 0.0 && level > 0.0 && bar.high >= level
  }

  predicate SignalMet(c: Config, bars: seq<Bar>, j: nat)
    requires j < |bars|
  {
    c.exits.Some? && j >= 1 && c.exits.value(bars[..j + 1])
  }

  lemma {:induction false} LevelsAre(c: Config, entryPrice: real)
    ensures c.stopLossPct > 0.0 ==> StopPrice(c, entryPrice) == LevelAt(entryPrice, -c.stopLossPct)
    ensures c.takeProfitPct > 0.0 ==> TargetPrice(c, entryPrice) == LevelAt(entryPrice, c.takeProfitPct)
  {
    PercentForm(entryPrice, c.stopLossPct);
    PercentForm(entryPrice, c.takeProfitPct);
  }

  lemma {:induction false} PercentForm(price: real, pct: real)
    ensures LessPct(price, pct) == LevelAt(price, -pct) && PlusPct(price, pct) == LevelAt(price, pct)
  {
    assert price * (pct / 100.0) == price * pct / 100.0;
    assert price * (1.0 - pct / 100.0) == price - price * (pct / 100.0);
    assert price * (1.0 + pct / 100.0) == price + price * (pct / 100.0);
    assert price * -pct / 100.0 == -(price * pct / 100.0);
  }

  /** Simple mode: the stop before the target before the exit conditions. A stop fills at the
      level or a worse open, a target at the level or a better open, a signal at the close. */
  lemma {:induction false} SimpleTradeExits(
      c: Config, bars: seq<Bar>, warmup: nat, trades: seq<Trade>, k: nat, j: nat)
    requires CompleteRun(c, bars, warmup, trades) && k < |trades| && !c.atrTrail
    requires trades[k].entryBar < j < |bars| && j <= trades[k].exitBar
    ensures var t, bar := trades[k], bars[j];
            var stopped := StopTouched(c, bar, t.entryPrice);
            var reached := !stopped && TargetTouched(c, bar, t.entryPrice);
            var signalled := !stopped && !reached && SignalMet(c, bars, j);
            if j == t.exitBar && t.reason != EndOfData then
              || (stopped && t.reason == StopLoss
                  && t.exitPrice == Min(LevelAt(t.entryPrice, -c.stopLossPct), bar.open))
              || (reached && t.reason == TakeProfit
                  && t.exitPrice == Max(LevelAt(t.entryPrice, c.takeProfitPct), bar.open))
              || (signalled && t.reason == ExitSignal && t.exitPrice == bar.close)
            else !stopped && !reached && !signalled
  {
    var t := trades[k];
    TradeOfRun(c, bars, warmup, trades, k);
    LevelsAre(c, t.entryPrice);
    if j < t.exitBar || t.reason == EndOfData { assert ExitAt(c, bars, t.entryBar, j).None?; }
  }

  /** Only the last trade is forced, and it closes on the last bar at its close. */
  lemma {:induction false} ForcedTradeExits(
      c: Config, bars: seq<Bar>, warmup: nat, trades: seq<Trade>, k: nat)
    requires CompleteRun(c, bars, warmup, trades) && k < |trades| && trades[k].reason == EndOfData
    ensures k == |trades| - 1 && trades[k].exitBar == |bars| - 1
    ensures trades[k].exitPrice == bars[|bars| - 1].close
  {
    TradeOfRun(c, bars, warmup, trades, k);
  }

  /** ATR mode: the hard stop is the multiplier, 3 unless one is set, times the ATR below the
      entry, or three per cent below it when fourteen bars with an ATR are not there. */
  lemma {:induction false} HardStopIs(c: Config, bar: Bar)
    ensures var atr := if bar.reading.bars >= 14 && bar.reading.atr.Some? then bar.reading.atr.value else 0.0;
            var mult := if c.stopMult > 0.0 then c.stopMult else 3.0;
            HardStopFor(c, bar) == if atr > 0.0 then bar.close - mult * atr else bar.close * 0.97
  {
  }

  /** What ends a position in ATR mode: its own checks against the highest close since the
      entry, then the exit conditions. */
  lemma {:induction false} AtrTradeExits(
      c: Config, bars: seq<Bar>, warmup: nat, trades: seq<Trade>, k: nat, j: nat)
    requires CompleteRun(c, bars, warmup, trades) && k < |trades| && c.atrTrail
    requires trades[k].entryBar < j < |bars| && j <= trades[k].exitBar
    ensures var t, bar := trades[k], bars[j];
            var mult := if c.trailMult > 0.0 then c.trailMult else 2.0;
            var fired := CheckAtrExits(bar.reading, HardStopFor(c, bars[t.entryBar]),
                                       HighestClose(bars, t.entryBar, j), mult, BUY);
            if j == t.exitBar && t.reason != EndOfData then
              && t.exitPrice == bar.close
              && (if fired.Some? then t.reason == Atr(fired.value)
                  else t.reason == ExitSignal && SignalMet(c, bars, j))
            else fired.None? && !SignalMet(c, bars, j)
  {
    var t := trades[k];
    TradeOfRun(c, bars, warmup, trades, k);
    WatermarkIsHighest(bars, t.entryBar, j);
    if j < t.exitBar || t.reason == EndOfData { assert ExitAt(c, bars, t.entryBar, j).None?; }
  }

  /** The highest close from bar e to bar j, from the front. */
  function HighestClose(bars: seq<Bar>, e: nat, j: nat): real
    requires e <= j < |bars|
    decreases j - e
  {
    if e == j then bars[e].close
    else
      var rest := HighestClose(bars, e + 1, j);
      if bars[e].close > rest then bars[e].close else rest
  }

  lemma {:induction false} HighestCloseLast(bars: seq<Bar>, e: nat, j: nat)
    requires e < j < |bars|
    ensures HighestClose(bars, e, j) == Max(HighestClose(bars, e, j - 1), bars[j].close)
    decreases j - e
  {
    if e == j - 1 {
    } else {
      HighestCloseLast(bars, e + 1, j);
    }
  }

  lemma {:induction false} WatermarkIsHighest(bars: seq<Bar>, e: nat, j: nat)
    requires e <= j < |bars|
    ensures Watermark(bars, e, j) == HighestClose(bars, e, j)
    decreases j
  {
    if e == j {
    } else {
      WatermarkIsHighest(bars, e, j - 1);
      HighestCloseLast(bars, e, j);
    }
  }
}
