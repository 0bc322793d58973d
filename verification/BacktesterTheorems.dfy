/** Properties of every complete run of the bar-by-bar backtest. */
module BacktesterTheorems {
  import opened Money
  import opened Options
  import opened PositionTracker
  import opened ExitParity
  import opened Backtester

  // ------------------------------------------------------------------ one answer

  /** Both are first affordable entries, so they are the same entry. */
  lemma {:induction false} SameEntry(
      c: Config, bars: seq<Bar>, warmup: nat, trades: seq<Trade>, e: nat, p: nat, f: nat, q: nat)
    requires e < |bars| && f < |bars|
    requires Opened(c, bars, warmup, trades, e, p) && Opened(c, bars, warmup, trades, f, q)
    ensures e == f && p == q
  {
  }

  /** Both are first exits, so they are the same exit. */
  lemma {:induction false} SameExit(c: Config, bars: seq<Bar>, e: nat, x: nat, y: nat)
    requires e < x < |bars| && e < y < |bars|
    requires HoldsUntil(c, bars, e, x) && ExitAt(c, bars, e, x).Some?
    requires HoldsUntil(c, bars, e, y) && ExitAt(c, bars, e, y).Some?
    ensures x == y
  {
  }

  lemma {:induction false} NextTradeUnique(
      c: Config, bars: seq<Bar>, warmup: nat, trades: seq<Trade>, t: Trade, u: Trade)
    requires NextTrade(c, bars, warmup, trades, t) && NextTrade(c, bars, warmup, trades, u)
    ensures t == u
  {
    SameEntry(c, bars, warmup, trades, t.entryBar, t.qty, u.entryBar, u.qty);
    SameExit(c, bars, t.entryBar, t.exitBar, u.exitBar);
  }

  lemma {:induction false} NextInChain(c: Config, bars: seq<Bar>, warmup: nat, trades: seq<Trade>, k: nat)
    requires Chain(c, bars, warmup, trades) && k < |trades|
    ensures NextTrade(c, bars, warmup, trades[..k], trades[k])
  {
  }

  lemma {:induction false} ChainsAgree(c: Config, bars: seq<Bar>, warmup: nat, a: seq<Trade>, b: seq<Trade>, k: nat)
    requires Chain(c, bars, warmup, a) && Chain(c, bars, warmup, b)
    requires k <= |a| && k <= |b|
    ensures a[..k] == b[..k]
  {
    if k == 0 {
    } else {
      var n := k - 1;
      ChainsAgree(c, bars, warmup, a, b, n);
      NextInChain(c, bars, warmup, a, n);
      NextInChain(c, bars, warmup, b, n);
      NextTradeUnique(c, bars, warmup, a[..n], a[n], b[n]);
      OneLonger(a, n);
      OneLonger(b, n);
    }
  }

  lemma {:induction false} OneLonger(a: seq<Trade>, n: nat)
    requires n < |a|
    ensures a[..n + 1] == a[..n] + [a[n]]
  {
  }

  /** The trades of a complete run other than a forced last one. */
  ghost function Regular(trades: seq<Trade>): seq<Trade> {
    if Forced(trades) then trades[..|trades| - 1] else trades
  }

  lemma {:induction false} RegularPart(c: Config, bars: seq<Bar>, warmup: nat, trades: seq<Trade>)
    requires CompleteRun(c, bars, warmup, trades)
    ensures Chain(c, bars, warmup, Regular(trades))
    ensures Forced(trades) ==> ForcedTrade(c, bars, warmup, Regular(trades), trades[|trades| - 1])
    ensures !Forced(trades) ==> IdleFrom(c, bars, FreeFrom(warmup, trades), |bars|, CashAfter(c, trades))
  {
    if Chain(c, bars, warmup, trades) { ReasonsAreRegular(c, bars, warmup, trades); }
  }

  /** What a forced trade holds to the end has no exit on the way. */
  lemma {:induction false} ForcedExcludesNext(
      c: Config, bars: seq<Bar>, warmup: nat, trades: seq<Trade>, f: Trade, t: Trade)
    requires ForcedTrade(c, bars, warmup, trades, f)
    ensures !NextTrade(c, bars, warmup, trades, t)
  {
    if NextTrade(c, bars, warmup, trades, t) {
      SameEntry(c, bars, warmup, trades, f.entryBar, f.qty, t.entryBar, t.qty);
    }
  }

  /** The regular part of a complete run cannot be continued. */
  lemma {:induction false} NoNextTrade(c: Config, bars: seq<Bar>, warmup: nat, run: seq<Trade>, t: Trade)
    requires CompleteRun(c, bars, warmup, run)
    ensures !NextTrade(c, bars, warmup, Regular(run), t)
  {
    RegularPart(c, bars, warmup, run);
    if Forced(run) {
      ForcedExcludesNext(c, bars, warmup, Regular(run), run[|run| - 1], t);
    }
  }

  lemma {:induction false} RegularNotShorter(c: Config, bars: seq<Bar>, warmup: nat, a: seq<Trade>, b: seq<Trade>)
    requires CompleteRun(c, bars, warmup, a) && CompleteRun(c, bars, warmup, b)
    ensures |Regular(a)| >= |Regular(b)|
  {
    var p, q := Regular(a), Regular(b);
    RegularPart(c, bars, warmup, a);
    RegularPart(c, bars, warmup, b);
    if |p| < |q| {
      ChainsAgree(c, bars, warmup, p, q, |p|);
      assert p[..|p|] == p;
      NoNextTrade(c, bars, warmup, a, q[|p|]);
    }
  }

  lemma {:induction false} RegularsAgree(c: Config, bars: seq<Bar>, warmup: nat, a: seq<Trade>, b: seq<Trade>)
    requires CompleteRun(c, bars, warmup, a) && CompleteRun(c, bars, warmup, b)
    ensures Regular(a) == Regular(b)
  {
    var p, q := Regular(a), Regular(b);
    RegularPart(c, bars, warmup, a);
    RegularPart(c, bars, warmup, b);
    RegularNotShorter(c, bars, warmup, a, b);
    RegularNotShorter(c, bars, warmup, b, a);
    ChainsAgree(c, bars, warmup, p, q, |p|);
    assert p[..|p|] == p && q[..|p|] == q;
  }

  /** The description determines the run: same bars and settings, same trades. */
  lemma {:induction false} CompleteRunUnique(c: Config, bars: seq<Bar>, warmup: nat, a: seq<Trade>, b: seq<Trade>)
    requires CompleteRun(c, bars, warmup, a) && CompleteRun(c, bars, warmup, b)
    ensures a == b
  {
    RegularsAgree(c, bars, warmup, a, b);
    ForcedIffNotIdle(c, bars, warmup, a);
    ForcedIffNotIdle(c, bars, warmup, b);
    if Forced(a) {
      RegularPart(c, bars, warmup, a);
      RegularPart(c, bars, warmup, b);
      SameForced(c, bars, warmup, Regular(a), a[|a| - 1], b[|b| - 1]);
      assert a == Regular(a) + [a[|a| - 1]] && b == Regular(b) + [b[|b| - 1]];
    }
  }

  lemma {:induction false} ForcedIffNotIdle(c: Config, bars: seq<Bar>, warmup: nat, run: seq<Trade>)
    requires CompleteRun(c, bars, warmup, run)
    ensures Forced(run) <==>
            !IdleFrom(c, bars, FreeFrom(warmup, Regular(run)), |bars|, CashAfter(c, Regular(run)))
  {
    RegularPart(c, bars, warmup, run);
    if Forced(run) {
      assert EntryQty(c, bars, run[|run| - 1].entryBar, CashAfter(c, Regular(run))) != 0;
    }
  }

  lemma {:induction false} SameForced(c: Config, bars: seq<Bar>, warmup: nat, trades: seq<Trade>, t: Trade, u: Trade)
    requires ForcedTrade(c, bars, warmup, trades, t) && ForcedTrade(c, bars, warmup, trades, u)
    ensures t == u
  {
    SameEntry(c, bars, warmup, trades, t.entryBar, t.qty, u.entryBar, u.qty);
  }

  // ------------------------------------------------------------------ order and prices

  lemma {:induction false} TradeAfterPrevious(c: Config, bars: seq<Bar>, warmup: nat, trades: seq<Trade>, j: nat)
    requires CompleteRun(c, bars, warmup, trades) && j < |trades|
    ensures FreeFrom(warmup, trades[..j]) <= trades[j].entryBar <= trades[j].exitBar < |bars|
    ensures j < |trades| - 1 ==> trades[j].entryBar < trades[j].exitBar
  {
    RegularPart(c, bars, warmup, trades);
    var p := Regular(trades);
    if j < |p| {
      assert p[..j] == trades[..j];
      assert NextTrade(c, bars, warmup, p[..j], p[j]);
    } else {
      assert trades[..j] == p;
    }
  }

  /** Entry before exit, exit before the next entry, nothing before the warmup. */
  predicate InOrder(trades: seq<Trade>, warmup: nat, n: nat) {
    && (trades != [] ==> warmup <= trades[0].entryBar)
    && (forall k :: 0 <= k < |trades| ==> trades[k].entryBar <= trades[k].exitBar < n)
    && (forall i, j :: 0 <= i < j < |trades| ==> trades[i].entryBar < trades[i].exitBar < trades[j].entryBar)
  }

  lemma {:induction false} OrderExtends(trades: seq<Trade>, warmup: nat, n: nat, k: nat)
    requires k < |trades| && InOrder(trades[..k], warmup, n)
    requires FreeFrom(warmup, trades[..k]) <= trades[k].entryBar <= trades[k].exitBar < n
    requires k > 0 ==> trades[k - 1].entryBar < trades[k - 1].exitBar
    ensures InOrder(trades[..k + 1], warmup, n)
  {
    assert trades[..k + 1] == trades[..k] + [trades[k]];
  }

  lemma {:induction false} PrefixInOrder(c: Config, bars: seq<Bar>, warmup: nat, trades: seq<Trade>, k: nat)
    requires CompleteRun(c, bars, warmup, trades) && k <= |trades|
    ensures InOrder(trades[..k], warmup, |bars|)
  {
    if k == 0 {
    } else {
      PrefixInOrder(c, bars, warmup, trades, k - 1);
      TradeAfterPrevious(c, bars, warmup, trades, k - 1);
      if k > 1 { TradeAfterPrevious(c, bars, warmup, trades, k - 2); }
      OrderExtends(trades, warmup, |bars|, k - 1);
    }
  }

  /** The trades of every complete run are in order. */
  lemma {:induction false} TradesOrdered(c: Config, bars: seq<Bar>, warmup: nat, trades: seq<Trade>)
    requires CompleteRun(c, bars, warmup, trades)
    ensures InOrder(trades, warmup, |bars|)
  {
    PrefixInOrder(c, bars, warmup, trades, |trades|);
    assert trades[..|trades|] == trades;
  }

  predicate RealBar(b: Bar) {
    && b.low <= b.open <= b.high && b.low <= b.close <= b.high && 0.0 <= b.low
    && b.reading.close == b.close
  }

  /** A fill lies inside its bar; a stop fills no better than its level, a target no worse. */
  lemma {:induction false} FillsInsideBar(c: Config, bars: seq<Bar>, e: nat, j: nat)
    requires e < j < |bars| && RealBar(bars[j]) && ExitAt(c, bars, e, j).Some?
    ensures var (price, reason) := ExitAt(c, bars, e, j).value;
            && bars[j].low <= price <= bars[j].high
            && (reason == StopLoss ==> price <= StopPrice(c, bars[e].close) && bars[j].low <= StopPrice(c, bars[e].close))
            && (reason == TakeProfit ==> price >= TargetPrice(c, bars[e].close) && bars[j].high >= TargetPrice(c, bars[e].close))
            && (!(reason in {StopLoss, TakeProfit}) ==> price == bars[j].close)
  {
  }

  // ------------------------------------------------------------------ cash

  /** A buy never costs more than the cash before it, the commission aside. */
  lemma {:induction false} EntryAffordable(c: Config, bars: seq<Bar>, e: nat, cash: real)
    requires e < |bars| && 0.0 <= c.sizePct <= 100.0
    requires EntryQty(c, bars, e, cash) > 0
    ensures Value(EntryQty(c, bars, e, cash), bars[e].close) <= cash
  {
    var price, available := bars[e].close, Share(c.sizePct, cash);
    var q := Quotient(available, price);
    var qty := EntryQty(c, bars, e, cash) as real;
    assert qty <= q;
    assert q * price == available;
    assert (q - qty) * price >= 0.0;
    ShareAtMost(c.sizePct, cash, available);
  }

  lemma {:induction false} ShareAtMost(pct: real, cash: real, part: real)
    requires 0.0 <= pct <= 100.0 && part == Share(pct, cash) && part > 0.0
    ensures part <= cash
  {
    var f := pct / 100.0;
    assert cash > 0.0 by {
      if cash <= 0.0 { ProductNonNegative(-cash, f); }
    }
    ProductNonNegative(cash, 1.0 - f);
  }

  lemma {:induction false} OpenCashFloor(c: Config, bars: seq<Bar>, warmup: nat, trades: seq<Trade>, e: nat, qty: nat)
    requires e < |bars| && Opened(c, bars, warmup, trades, e, qty) && 0.0 <= c.sizePct <= 100.0
    ensures CashWhileOpen(c, trades, qty, bars[e].close) >= -c.commission
  {
    EntryAffordable(c, bars, e, CashAfter(c, trades));
  }

  /** How trade k of a run came about: from a signal to its exit, or forced and the last. */
  lemma {:induction false} TradeOfRun(c: Config, bars: seq<Bar>, warmup: nat, trades: seq<Trade>, k: nat)
    requires CompleteRun(c, bars, warmup, trades) && k < |trades|
    ensures || NextTrade(c, bars, warmup, trades[..k], trades[k])
            || (k == |trades| - 1 && ForcedTrade(c, bars, warmup, trades[..k], trades[k]))
  {
    RegularPart(c, bars, warmup, trades);
    var p := Regular(trades);
    if k < |p| {
      assert p[..k] == trades[..k];
      NextInChain(c, bars, warmup, p, k);
    } else {
      assert trades[..k] == p;
    }
  }

  /** Exits fill at closes only: the ATR mode, and the simple mode without stop and target. */
  predicate ExitsAtCloses(c: Config) { c.atrTrail || (c.stopLossPct <= 0.0 && c.takeProfitPct <= 0.0) }

  lemma {:induction false} ExitPriceOfRun(c: Config, bars: seq<Bar>, warmup: nat, trades: seq<Trade>, k: nat)
    requires CompleteRun(c, bars, warmup, trades) && k < |trades| && trades[k].exitBar < |bars|
    requires forall b :: b in bars ==> RealBar(b)
    ensures trades[k].exitPrice >= bars[trades[k].exitBar].low >= 0.0
    ensures ExitsAtCloses(c) ==> trades[k].exitPrice == bars[trades[k].exitBar].close
  {
    var t := trades[k];
    TradeOfRun(c, bars, warmup, trades, k);
    assert bars[t.exitBar] in bars;
    if NextTrade(c, bars, warmup, trades[..k], t) { FillsInsideBar(c, bars, t.entryBar, t.exitBar); }
  }

  predicate Solvent(c: Config) { 0.0 <= c.sizePct <= 100.0 && c.initial >= 0.0 && c.commission >= 0.0 }

  /** Over every complete run, forced close included, at every point of it: an open position
      leaves at least minus one commission, and closed trades at least minus two; below minus
      one only after an exit under the commission, so never when no bar trades below it. */
  lemma {:induction false} CashFloor(c: Config, bars: seq<Bar>, warmup: nat, trades: seq<Trade>, k: nat)
    requires CompleteRun(c, bars, warmup, trades) && k <= |trades|
    requires Solvent(c) && forall b :: b in bars ==> RealBar(b)
    ensures k < |trades| ==>
              CashWhileOpen(c, trades[..k], trades[k].qty, trades[k].entryPrice) >= -c.commission
    ensures CashAfter(c, trades[..k]) >= -2.0 * c.commission
    ensures CashAfter(c, trades[..k]) < -c.commission ==> k > 0 && trades[k - 1].exitPrice < c.commission
    ensures (forall b :: b in bars ==> b.low >= c.commission) ==> CashAfter(c, trades[..k]) >= -c.commission
  {
    if k < |trades| {
      TradeOfRun(c, bars, warmup, trades, k);
      OpenCashFloor(c, bars, warmup, trades[..k], trades[k].entryBar, trades[k].qty);
    }
    if k > 0 {
      var n, t := k - 1, trades[k - 1];
      TradeOfRun(c, bars, warmup, trades, n);
      OpenCashFloor(c, bars, warmup, trades[..n], t.entryBar, t.qty);
      TradeAfterPrevious(c, bars, warmup, trades, n);
      ExitPriceOfRun(c, bars, warmup, trades, n);
      assert bars[t.exitBar] in bars;
      OneLonger(trades, n);
      AfterTrade(c, trades[..n], t);
    }
  }

  /** Cash after a trade that was paid for. */
  lemma {:induction false} AfterTrade(c: Config, trades: seq<Trade>, t: Trade)
    requires t.qty > 0 && t.exitPrice >= 0.0 && c.commission >= 0.0
    requires CashWhileOpen(c, trades, t.qty, t.entryPrice) >= -c.commission
    ensures CashAfter(c, trades + [t]) >= -2.0 * c.commission
    ensures t.exitPrice >= c.commission ==> CashAfter(c, trades + [t]) >= -c.commission
  {
    assert (trades + [t])[..|trades|] == trades;
    PnlOfTrade(c, t);
    ExitProceeds(t.qty, t.exitPrice, c.commission);
  }

  lemma {:induction false} ExitProceeds(qty: nat, price: real, commission: real)
    requires qty > 0 && price >= 0.0 && commission >= 0.0
    ensures Value(qty, price) >= 0.0
    ensures price >= commission ==> Value(qty, price) >= commission
  {
    ValueMonotone(qty, 0.0, price);
    if price >= commission {
      ValueMonotone(qty, commission, price);
      ProductNonNegative(qty as real - 1.0, commission);
    }
  }

  // ------------------------------------------------------------------ when the floor breaks

  const MAX_CAPITAL: real := 10000000.0

  /** The settings that `BacktestRequest` lets through. */
  predicate Accepted(c: Config) {
    && 0.0 < c.initial <= MAX_CAPITAL && 0.0 < c.sizePct <= 100.0
    && 0.0 <= c.stopLossPct <= 50.0 && 0.0 <= c.takeProfitPct <= 100.0
    && 0.0 <= c.stopMult <= 10.0 && 0.0 <= c.trailMult <= 10.0
  }

  /** A bar on which the capital can buy a share. Row 0 meets no condition, so it buys nothing. */
  predicate Buyable(bars: seq<Bar>, warmup: nat, e: nat) {
    warmup <= e < |bars| && 1 <= e && 0.0 < bars[e].close <= MAX_CAPITAL
  }

  /** Such a bar, and a close below the commission on a later bar, or on the last one when that
      is the same. */
  predicate CollapsesAt(bars: seq<Bar>, warmup: nat, commission: real, e: nat, j: nat) {
    && Buyable(bars, warmup, e) && e <= j < |bars| && (e < j || j == |bars| - 1)
    && bars[j].close < commission
  }

  ghost predicate Collapses(bars: seq<Bar>, warmup: nat, commission: real) {
    exists e: nat, j: nat :: CollapsesAt(bars, warmup, commission, e, j)
  }

  /** At some point of this run cash is below minus one commission. */
  ghost predicate BreaksFloor(c: Config, bars: seq<Bar>, warmup: nat, trades: seq<Trade>) {
    exists k: nat :: k <= |trades| && CashAfter(c, trades[..k]) < -c.commission
  }

  /** The first entry of a run is bought with the capital alone. */
  lemma {:induction false} FirstEntryBuyable(c: Config, bars: seq<Bar>, warmup: nat, trades: seq<Trade>)
    requires CompleteRun(c, bars, warmup, trades) && trades != [] && Accepted(c)
    ensures Buyable(bars, warmup, trades[0].entryBar)
  {
    var t := trades[0];
    TradeOfRun(c, bars, warmup, trades, 0);
    assert trades[..0] == [];
    EntryAffordable(c, bars, t.entryBar, c.initial);
    ValueMonotoneInQty(1, t.qty, bars[t.entryBar].close);
  }

  lemma {:induction false} ValueMonotoneInQty(m: nat, n: nat, price: real)
    requires m <= n && price >= 0.0
    ensures Value(m, price) <= Value(n, price)
  {
    ProductNonNegative((n - m) as real, price);
  }

  lemma {:induction false} BrokenAfterCollapse(c: Config, bars: seq<Bar>, warmup: nat, trades: seq<Trade>, k: nat)
    requires CompleteRun(c, bars, warmup, trades) && k <= |trades|
    requires Accepted(c) && c.commission >= 0.0 && ExitsAtCloses(c) && forall b :: b in bars ==> RealBar(b)
    requires CashAfter(c, trades[..k]) < -c.commission
    ensures Collapses(bars, warmup, c.commission)
  {
    CashFloor(c, bars, warmup, trades, k);
    var n, t := k - 1, trades[k - 1];
    TradeOfRun(c, bars, warmup, trades, n);
    TradeAfterPrevious(c, bars, warmup, trades, n);
    ExitPriceOfRun(c, bars, warmup, trades, n);
    FirstEntryBuyable(c, bars, warmup, trades);
    TradesOrdered(c, bars, warmup, trades);
    assert CollapsesAt(bars, warmup, c.commission, trades[0].entryBar, t.exitBar);
  }

  lemma {:induction false} FreeAfterWarmup(c: Config, bars: seq<Bar>, warmup: nat, trades: seq<Trade>, n: nat)
    requires CompleteRun(c, bars, warmup, trades) && n <= |trades|
    ensures FreeFrom(warmup, trades[..n]) >= warmup
  {
    if n == 0 {
    } else {
      FreeAfterWarmup(c, bars, warmup, trades, n - 1);
      TradeAfterPrevious(c, bars, warmup, trades, n - 1);
    }
  }

  /** All the capital buys one share on bar e, once. */
  function Once(bars: seq<Bar>, commission: real, e: nat, exits: Option<seq<Bar> -> bool>,
                stopLossPct: real, takeProfitPct: real): Config
    requires e < |bars|
  {
    Config((rows: seq<Bar>) => |rows| == e + 1, exits, bars[e].close, 100.0, stopLossPct, takeProfitPct,
           false, 0.0, 0.0, commission)
  }

  lemma {:induction false} OneShare(price: real)
    requires price > 0.0
    ensures Quotient(Share(100.0, price), price).Floor == 1
  {
    assert Share(100.0, price) == price && Quotient(price, price) == 1.0;
  }

  /** Its run is the one trade, to its exit or to the end of the data. */
  lemma {:induction false} OnceRuns(
      c: Config, bars: seq<Bar>, warmup: nat, e: nat, j: nat, price: real, why: ExitReason)
    requires Buyable(bars, warmup, e) && e <= j < |bars|
    requires c == Once(bars, c.commission, e, c.exits, c.stopLossPct, c.takeProfitPct)
    requires HoldsUntil(c, bars, e, if why == EndOfData then |bars| else j)
    requires if why == EndOfData then j == |bars| - 1 && price == bars[j].close
             else e < j && ExitAt(c, bars, e, j) == Some((price, why))
    ensures var t := Trade(e, j, bars[e].close, price, 1, why);
            CompleteRun(c, bars, warmup, [t]) && CashAfter(c, [t]) == price - 2.0 * c.commission
  {
    var t := Trade(e, j, bars[e].close, price, 1, why);
    OneShare(bars[e].close);
    assert [t][..0] == [];
    assert EntryQty(c, bars, e, c.initial) == 1;
    assert Opened(c, bars, warmup, [], e, 1);
    if why == EndOfData {
      assert ForcedTrade(c, bars, warmup, [t][..0], t);
    } else {
      assert NextTrade(c, bars, warmup, [t][..0], [t][0]);
    }
    assert CashAfter(c, [t]) == CashAfter(c, []) + Pnl(c, t);
  }

  /** Buy on bar e, sell on a signal on bar j, or at the end. */
  function RoundTrip(bars: seq<Bar>, commission: real, e: nat, j: nat): Config
    requires e <= j < |bars|
  {
    Once(bars, commission, e, if e < j then Some((rows: seq<Bar>) => |rows| == j + 1) else None, 0.0, 0.0)
  }

  lemma {:induction false} RoundTripRuns(bars: seq<Bar>, warmup: nat, commission: real, e: nat, j: nat) returns (t: Trade)
    requires CollapsesAt(bars, warmup, commission, e, j)
    ensures CompleteRun(RoundTrip(bars, commission, e, j), bars, warmup, [t])
    ensures CashAfter(RoundTrip(bars, commission, e, j), [t]) == bars[j].close - 2.0 * commission
  {
    var why := if e < j then ExitSignal else EndOfData;
    OnceRuns(RoundTrip(bars, commission, e, j), bars, warmup, e, j, bars[j].close, why);
    t := Trade(e, j, bars[e].close, bars[j].close, 1, why);
  }

  /** Some run with accepted settings falls below the floor on these bars. */
  ghost predicate SomeRunBreaks(bars: seq<Bar>, warmup: nat, commission: real, closesOnly: bool) {
    exists c: Config, trades: seq<Trade> :: BreakingRun(c, bars, warmup, commission, closesOnly, trades)
  }

  ghost predicate BreakingRun(
      c: Config, bars: seq<Bar>, warmup: nat, commission: real, closesOnly: bool, trades: seq<Trade>)
  {
    && Accepted(c) && c.commission == commission && (closesOnly ==> ExitsAtCloses(c))
    && CompleteRun(c, bars, warmup, trades) && BreaksFloor(c, bars, warmup, trades)
  }

  lemma {:induction false} OneTradeBreaks(
      c: Config, bars: seq<Bar>, warmup: nat, commission: real, closesOnly: bool, t: Trade)
    requires Accepted(c) && c.commission == commission && (closesOnly ==> ExitsAtCloses(c))
    requires CompleteRun(c, bars, warmup, [t]) && CashAfter(c, [t]) < -commission
    ensures SomeRunBreaks(bars, warmup, commission, closesOnly)
  {
    assert [t][..1] == [t];
    assert BreakingRun(c, bars, warmup, commission, closesOnly, [t]);
  }

  /** Exactly when cash can fall below minus one commission where exits fill at closes: if and
      only if a close below the commission can be sold at. */
  lemma {:induction false} FloorBreaksAtClosesIff(bars: seq<Bar>, warmup: nat, commission: real)
    requires commission >= 0.0 && forall b :: b in bars ==> RealBar(b)
    ensures SomeRunBreaks(bars, warmup, commission, true) <==> Collapses(bars, warmup, commission)
  {
    if SomeRunBreaks(bars, warmup, commission, true) {
      var c, trades :| BreakingRun(c, bars, warmup, commission, true, trades);
      var k: nat :| k <= |trades| && CashAfter(c, trades[..k]) < -c.commission;
      BrokenAfterCollapse(c, bars, warmup, trades, k);
    }
    if Collapses(bars, warmup, commission) { CollapseBreaks(bars, warmup, commission, true); }
  }

  lemma {:induction false} CollapseBreaks(bars: seq<Bar>, warmup: nat, commission: real, closesOnly: bool)
    requires commission >= 0.0 && Collapses(bars, warmup, commission)
    ensures SomeRunBreaks(bars, warmup, commission, closesOnly)
  {
    var e: nat, j: nat :| CollapsesAt(bars, warmup, commission, e, j);
    var t := RoundTripRuns(bars, warmup, commission, e, j);
    OneTradeBreaks(RoundTrip(bars, commission, e, j), bars, warmup, commission, closesOnly, t);
  }

  /** The lowest stop that bar j can hit, at most 50 per cent below the entry: it is below the
      entry, no bar between hits it, and its fill is below the commission. */
  predicate DipsAt(bars: seq<Bar>, warmup: nat, commission: real, e: nat, j: nat) {
    && Buyable(bars, warmup, e) && e < j < |bars|
    && var level := Max(bars[e].close / 2.0, bars[j].low);
       && level < bars[e].close && (forall k :: e < k < j ==> bars[k].low > level)
       && Min(level, bars[j].open) < commission
  }

  /** An entry below the commission and a next open below it: a target between the two fills there. */
  predicate CheapAt(bars: seq<Bar>, warmup: nat, commission: real, e: nat) {
    && Buyable(bars, warmup, e) && e + 1 < |bars|
    && bars[e].close < commission && bars[e + 1].open < commission
  }

  ghost predicate Dips(bars: seq<Bar>, warmup: nat, commission: real) {
    exists e: nat, j: nat :: DipsAt(bars, warmup, commission, e, j)
  }

  ghost predicate Cheap(bars: seq<Bar>, warmup: nat, commission: real) {
    exists e: nat :: CheapAt(bars, warmup, commission, e)
  }

  lemma {:induction false} LevelsAround(c: Config, price: real)
    requires price > 0.0
    ensures 0.0 < c.stopLossPct <= 50.0 ==> price / 2.0 <= StopPrice(c, price) < price
    ensures c.takeProfitPct > 0.0 ==> TargetPrice(c, price) > price
  {
    if 0.0 < c.stopLossPct <= 50.0 {
      ProductNonNegative(price, c.stopLossPct / 100.0);
      ProductNonNegative(price, 0.5 - c.stopLossPct / 100.0);
    }
    if c.takeProfitPct > 0.0 { ProductNonNegative(price, c.takeProfitPct / 100.0); }
  }

  /** What a fill below the commission says about the bars. */
  lemma {:induction false} CheapFill(c: Config, bars: seq<Bar>, warmup: nat, trades: seq<Trade>, t: Trade)
    requires NextTrade(c, bars, warmup, trades, t) && t.exitPrice < c.commission && Accepted(c)
    requires Buyable(bars, warmup, t.entryBar) && forall b :: b in bars ==> RealBar(b)
    ensures || CollapsesAt(bars, warmup, c.commission, t.entryBar, t.exitBar)
            || DipsAt(bars, warmup, c.commission, t.entryBar, t.exitBar)
            || CheapAt(bars, warmup, c.commission, t.entryBar)
  {
    var e, j := t.entryBar, t.exitBar;
    assert bars[j] in bars && bars[e + 1] in bars;
    LevelsAround(c, bars[e].close);
    FillsInsideBar(c, bars, e, j);
    if t.reason == TakeProfit && j > e + 1 { assert ExitAt(c, bars, e, e + 1).None?; }
    if t.reason == StopLoss { StopHeld(c, bars, e, j); }
  }

  /** Until it is hit, every low is above the stop. */
  lemma {:induction false} StopHeld(c: Config, bars: seq<Bar>, e: nat, j: nat)
    requires e < j < |bars| && !c.atrTrail && c.stopLossPct > 0.0 && StopPrice(c, bars[e].close) > 0.0
    requires HoldsUntil(c, bars, e, j)
    ensures forall k :: e < k < j ==> bars[k].low > StopPrice(c, bars[e].close)
  {
    forall k | e < k < j ensures bars[k].low > StopPrice(c, bars[e].close) {
      assert ExitAt(c, bars, e, k).None?;
    }
  }

  function Middle(a: real, b: real): real { (a + b) / 2.0 }

  /** The percentages that put a stop or a target at a given level. */
  function StopPct(price: real, level: real): real
    requires price > 0.0
  {
    100.0 * (1.0 - level / price)
  }

  function TargetPct(price: real, level: real): real
    requires price > 0.0
  {
    100.0 * (level / price - 1.0)
  }

  lemma {:induction false} LevelReached(price: real, level: real)
    requires price > 0.0
    ensures LessPct(price, StopPct(price, level)) == level
    ensures PlusPct(price, TargetPct(price, level)) == level
    ensures price / 2.0 <= level < price ==> 0.0 < StopPct(price, level) <= 50.0
    ensures price < level <= 2.0 * price ==> 0.0 < TargetPct(price, level) <= 100.0
  {
    var q := level / price;
    assert Product(q, price) == level;
    if level < price { ProductCancels(q, 1.0, price); }
    if level > price { ProductCancels(1.0, q, price); }
    if level >= price / 2.0 && q < 0.5 { ProductStrict(q, 0.5, price); }
    if level <= 2.0 * price && q > 2.0 { ProductStrict(2.0, q, price); }
  }

  lemma {:induction false} DipBreaks(bars: seq<Bar>, warmup: nat, commission: real, e: nat, j: nat)
    requires commission >= 0.0 && DipsAt(bars, warmup, commission, e, j)
    requires forall b :: b in bars ==> RealBar(b)
    ensures SomeRunBreaks(bars, warmup, commission, false)
  {
    var price := bars[e].close;
    var level := Max(price / 2.0, bars[j].low);
    LevelReached(price, level);
    var c := Once(bars, commission, e, None, StopPct(price, level), 0.0);
    var fill := Min(level, bars[j].open);
    assert StopPrice(c, price) == level;
    assert SimpleExit(c, bars[j], price) == Some((fill, StopLoss));
    assert HoldsUntil(c, bars, e, j) && ExitAt(c, bars, e, j) == Some((fill, StopLoss));
    OnceRuns(c, bars, warmup, e, j, fill, StopLoss);
    OneTradeBreaks(c, bars, warmup, commission, false, Trade(e, j, price, fill, 1, StopLoss));
  }

  /** A target between the entry and the commission, or a sale at the next close. */
  lemma {:induction false} CheapBreaks(bars: seq<Bar>, warmup: nat, commission: real, e: nat)
    requires commission >= 0.0 && CheapAt(bars, warmup, commission, e)
    requires forall b :: b in bars ==> RealBar(b)
    ensures SomeRunBreaks(bars, warmup, commission, false)
  {
    var price, f := bars[e].close, e + 1;
    assert bars[f] in bars;
    if bars[f].close < commission {
      assert CollapsesAt(bars, warmup, commission, e, f);
      CollapseBreaks(bars, warmup, commission, false);
    } else {
      var level := Middle(price, Min(commission, 2.0 * price));
      LevelReached(price, level);
      var c := Once(bars, commission, e, None, 0.0, TargetPct(price, level));
      var fill := Max(level, bars[f].open);
      assert TargetPrice(c, price) == level && c.takeProfitPct > 0.0;
      assert SimpleExit(c, bars[f], price) == Some((fill, TakeProfit));
      assert HoldsUntil(c, bars, e, f) && ExitAt(c, bars, e, f) == Some((fill, TakeProfit));
      OnceRuns(c, bars, warmup, e, f, fill, TakeProfit);
      OneTradeBreaks(c, bars, warmup, commission, false, Trade(e, f, price, fill, 1, TakeProfit));
    }
  }

  /** Exactly when it can with any accepted settings, stops and targets included, where a share
      never costs more than the largest capital. */
  lemma {:induction false} FloorBreaksIff(bars: seq<Bar>, warmup: nat, commission: real)
    requires commission >= 0.0 && forall b :: b in bars ==> RealBar(b)
    requires forall b :: b in bars ==> b.close <= MAX_CAPITAL
    ensures SomeRunBreaks(bars, warmup, commission, false)
       <==> Collapses(bars, warmup, commission) || Dips(bars, warmup, commission) || Cheap(bars, warmup, commission)
  {
    if SomeRunBreaks(bars, warmup, commission, false) {
      var c, trades :| BreakingRun(c, bars, warmup, commission, false, trades);
      var k: nat :| k <= |trades| && CashAfter(c, trades[..k]) < -c.commission;
      BrokenSomehow(c, bars, warmup, trades, k);
    }
    if Collapses(bars, warmup, commission) { CollapseBreaks(bars, warmup, commission, false); }
    if Dips(bars, warmup, commission) {
      var e: nat, j: nat :| DipsAt(bars, warmup, commission, e, j);
      DipBreaks(bars, warmup, commission, e, j);
    }
    if Cheap(bars, warmup, commission) {
      var e: nat :| CheapAt(bars, warmup, commission, e);
      CheapBreaks(bars, warmup, commission, e);
    }
  }

  lemma {:induction false} BrokenSomehow(c: Config, bars: seq<Bar>, warmup: nat, trades: seq<Trade>, k: nat)
    requires CompleteRun(c, bars, warmup, trades) && k <= |trades|
    requires Accepted(c) && c.commission >= 0.0
    requires forall b :: b in bars ==> RealBar(b) && b.close <= MAX_CAPITAL
    requires CashAfter(c, trades[..k]) < -c.commission
    ensures Collapses(bars, warmup, c.commission) || Dips(bars, warmup, c.commission) || Cheap(bars, warmup, c.commission)
  {
    CashFloor(c, bars, warmup, trades, k);
    var n, t := k - 1, trades[k - 1];
    TradeOfRun(c, bars, warmup, trades, n);
    FreeAfterWarmup(c, bars, warmup, trades, n);
    assert bars[t.entryBar] in bars;
    if NextTrade(c, bars, warmup, trades[..n], t) {
      CheapFill(c, bars, warmup, trades[..n], t);
    } else {
      assert CollapsesAt(bars, warmup, c.commission, t.entryBar, t.exitBar);
    }
  }

  function Flat(i: int, price: real): Bar {
    Bar(i, price, price, price, price, Reading(if i >= 0 then i + 1 else 0, price, None, NoCross, NoCross, None, None))
  }

  /** Such bars exist: the shortest accepted history, with a price that collapses to zero
      after an entry on bar 1, leaves minus two commissions. */
  lemma {:induction false} CollapseBreaksFloor()
    ensures exists c: Config, bars: seq<Bar>, t: Trade ::
              && Accepted(c) && c.commission == 1.0 && |bars| == MIN_BARS_AFTER_WARMUP
              && (forall b :: b in bars ==> RealBar(b))
              && CompleteRun(c, bars, 0, [t])
              && CashAfter(c, [t]) == -2.0
  {
    var bars := seq(20, i => if i <= 1 then Flat(i, 50.0) else Flat(i, 0.0));
    var t := RoundTripRuns(bars, 0, 1.0, 1, 2);
    assert CompleteRun(RoundTrip(bars, 1.0, 1, 2), bars, 0, [t]);
  }

  // ------------------------------------------------------------------ mirror of the live bot

  function Readings(bars: seq<Bar>): seq<Reading> {
    seq(|bars|, i requires 0 <= i < |bars| => bars[i].reading)
  }

  /** In ATR mode without user exits, a trade is one run of the mirrored exit checks over
      the bars after its entry. */
  lemma {:induction false} TradeIsBacktestRun(c: Config, bars: seq<Bar>, e: nat, j: nat, x: nat, why: Reason)
    requires e < j <= x < |bars| && c.atrTrail && c.exits.None?
    requires forall b :: b in bars ==> RealBar(b)
    requires HoldsUntil(c, bars, e, x) && ExitAt(c, bars, e, x) == Some((bars[x].close, Atr(why)))
    ensures BacktestRun(Readings(bars[j..]), HardStopFor(c, bars[e]), TrailMult(c), Watermark(bars, e, j - 1), j)
              == Outcome(Some((x, why)), Watermark(bars, e, x))
    decreases x - j
  {
    var stream := Readings(bars[j..]);
    assert bars[j] in bars;
    assert stream[0] == bars[j].reading;
    assert stream[1..] == Readings(bars[j + 1..]);
    if j < x {
      assert ExitAt(c, bars, e, j).None?;
      TradeIsBacktestRun(c, bars, e, j + 1, x, why);
    }
  }

  /** So a live position registered on the entry bar, fed the same readings, exits on the
      same bar for the same reason, whenever its stream is faithful. */
  lemma {:induction false} LiveBotTakesTheSameExit(
      c: Config, bars: seq<Bar>, e: nat, x: nat, why: Reason, pos: OpenPosition)
    requires e < x < |bars| && c.atrTrail && c.exits.None?
    requires forall b :: b in bars ==> RealBar(b)
    requires HoldsUntil(c, bars, e, x) && ExitAt(c, bars, e, x) == Some((bars[x].close, Atr(why)))
    requires pos.side == BUY && pos.watermark == bars[e].close && pos.trailMult == TrailMult(c)
    requires Faithful(Readings(bars[e + 1..]), HardStopFor(c, bars[e]), pos.hardStop, pos.trailMult)
    ensures LiveRun(Readings(bars[e + 1..]), pos, e + 1) == Outcome(Some((x, why)), Watermark(bars, e, x))
  {
    TradeIsBacktestRun(c, bars, e, e + 1, x, why);
    RunsAgree(Readings(bars[e + 1..]), pos, HardStopFor(c, bars[e]), e + 1);
  }
}
