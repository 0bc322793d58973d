/** The bar-by-bar backtest of `backend/backtester.py`. What the loop must produce is said
    without its state variables: which bars may open a position, and where it closes. */
module Backtester {
  import opened Money
  import opened Options
  import opened Rounding
  import opened PositionTracker
  import opened ExitParity

  const MIN_BARS_AFTER_WARMUP: nat := 20
  const DEFAULT_ATR_STOP_MULT: real := 3.0
  const DEFAULT_ATR_TRAIL_MULT: real := 2.0

  datatype Bar = Bar(time: int, open: real, high: real, low: real, close: real, reading: Reading)

  /** Conditions are pure functions of the bars up to the current one, asked of two bars at
      least. */
  datatype Config = Config(
    entry: seq<Bar> -> bool,
    exits: Option<seq<Bar> -> bool>,
    initial: real,
    sizePct: real,
    stopLossPct: real,
    takeProfitPct: real,
    atrTrail: bool,
    stopMult: real,
    trailMult: real,
    commission: real)

  datatype ExitReason = Atr(reason: Reason) | StopLoss | TakeProfit | ExitSignal | EndOfData

  datatype Trade = Trade(entryBar: nat, exitBar: nat, entryPrice: real, exitPrice: real, qty: nat, reason: ExitReason)

  function StopMult(c: Config): real { if c.stopMult > 0.0 then c.stopMult else DEFAULT_ATR_STOP_MULT }
  function TrailMult(c: Config): real { if c.trailMult > 0.0 then c.trailMult else DEFAULT_ATR_TRAIL_MULT }

  /** Unrounded profit of a trade: both commissions are charged to it. */
  function Pnl(c: Config, t: Trade): real {
    Value(t.qty, t.exitPrice) - Value(t.qty, t.entryPrice) - 2.0 * c.commission
  }

  /** The rounded figures of a trade record: entry price, exit price, P&L. */
  function Shown(c: Config, t: Trade): (real, real, real) {
    (Round2(t.entryPrice), Round2(t.exitPrice), Round2(Pnl(c, t)))
  }

  /** Cash once the listed trades are closed. */
  function CashAfter(c: Config, trades: seq<Trade>): real {
    if trades == [] then c.initial
    else CashAfter(c, trades[..|trades| - 1]) + Pnl(c, trades[|trades| - 1])
  }

  // ------------------------------------------------------------------ entries and exits

  /** `evaluate_conditions`: a single bar meets none. */
  predicate Holds(condition: seq<Bar> -> bool, rows: seq<Bar>) { |rows| >= 2 && condition(rows) }

  function Share(pct: real, amount: real): real { amount * (pct / 100.0) }

  /** Shares a flat account buys at the close of a bar; zero means no entry. */
  function EntryQty(c: Config, bars: seq<Bar>, j: nat, cash: real): nat
    requires j < |bars|
  {
    if Holds(c.entry, bars[..j + 1]) && bars[j].close > 0.0 then
      var q := Quotient(Share(c.sizePct, cash), bars[j].close).Floor;
      if q > 0 then q else 0
    else 0
  }

  function LessPct(price: real, pct: real): real { price * (1.0 - pct / 100.0) }

  function PlusPct(price: real, pct: real): real { price * (1.0 + pct / 100.0) }

  function StopPrice(c: Config, entryPrice: real): real {
    if c.stopLossPct > 0.0 then LessPct(entryPrice, c.stopLossPct) else 0.0
  }

  function TargetPrice(c: Config, entryPrice: real): real {
    if c.takeProfitPct > 0.0 then PlusPct(entryPrice, c.takeProfitPct) else 0.0
  }

  function HardStopFor(c: Config, bar: Bar): real {
    HardStopAtEntry(BUY, bar.close, StopMult(c), AtrAtEntry(bar.reading))
  }

  /** Highest close from the entry bar to bar j. */
  function Watermark(bars: seq<Bar>, e: nat, j: nat): real
    requires e <= j < |bars|
  {
    if j == e then bars[e].close else Max(Watermark(bars, e, j - 1), bars[j].close)
  }

  /** Stop and target of the simple mode; a gap through the level fills at the open. */
  function SimpleExit(c: Config, bar: Bar, entryPrice: real): Option<(real, ExitReason)> {
    var stop, target := StopPrice(c, entryPrice), TargetPrice(c, entryPrice);
    if c.stopLossPct > 0.0 && stop > 0.0 && bar.low <= stop then Some((Min(stop, bar.open), StopLoss))
    else if c.takeProfitPct > 0.0 && target > 0.0 && bar.high >= target then Some((Max(target, bar.open), TakeProfit))
    else None
  }

  function AtrExit(c: Config, bars: seq<Bar>, e: nat, j: nat): Option<(real, ExitReason)>
    requires e <= j < |bars|
  {
    var r := CheckAtrExits(bars[j].reading, HardStopFor(c, bars[e]), Watermark(bars, e, j), TrailMult(c), BUY);
    if r.Some? then Some((bars[j].close, Atr(r.value))) else None
  }

  /** Whether, where and why a position opened at the close of bar e closes on bar j. */
  function ExitAt(c: Config, bars: seq<Bar>, e: nat, j: nat): Option<(real, ExitReason)>
    requires e < j < |bars|
  {
    var first := if c.atrTrail then AtrExit(c, bars, e, j) else SimpleExit(c, bars[j], bars[e].close);
    if first.Some? then first
    else if c.exits.Some? && Holds(c.exits.value, bars[..j + 1]) then Some((bars[j].close, ExitSignal))
    else None
  }

  // ------------------------------------------------------------------ what a run must be

  /** Nothing closes the position opened on bar e before bar j. */
  ghost predicate HoldsUntil(c: Config, bars: seq<Bar>, e: nat, j: nat)
    requires j <= |bars|
  {
    forall k :: e < k < j ==> ExitAt(c, bars, e, k).None?
  }

  /** A flat account with this cash enters on no bar of [from, to). */
  ghost predicate IdleFrom(c: Config, bars: seq<Bar>, from: nat, to: nat, cash: real)
    requires to <= |bars|
  {
    forall j :: from <= j < to ==> EntryQty(c, bars, j, cash) == 0
  }

  /** The bar from which the account may enter again after the listed trades. */
  function FreeFrom(warmup: nat, trades: seq<Trade>): nat {
    if trades == [] then warmup else trades[|trades| - 1].exitBar + 1
  }

  ghost predicate Opened(c: Config, bars: seq<Bar>, warmup: nat, trades: seq<Trade>, e: nat, qty: nat)
    requires e < |bars|
  {
    && FreeFrom(warmup, trades) <= e
    && IdleFrom(c, bars, FreeFrom(warmup, trades), e, CashAfter(c, trades))
    && qty > 0 && qty == EntryQty(c, bars, e, CashAfter(c, trades))
  }

  /** The next trade is the first affordable entry, held to its first exit. */
  ghost predicate NextTrade(c: Config, bars: seq<Bar>, warmup: nat, trades: seq<Trade>, t: Trade) {
    && t.entryBar < t.exitBar < |bars|
    && Opened(c, bars, warmup, trades, t.entryBar, t.qty)
    && t.entryPrice == bars[t.entryBar].close
    && HoldsUntil(c, bars, t.entryBar, t.exitBar)
    && ExitAt(c, bars, t.entryBar, t.exitBar) == Some((t.exitPrice, t.reason))
  }

  ghost predicate Chain(c: Config, bars: seq<Bar>, warmup: nat, trades: seq<Trade>) {
    forall k {:trigger NextTrade(c, bars, warmup, trades[..k], trades[k])} :: 0 <= k < |trades| ==>
      NextTrade(c, bars, warmup, trades[..k], trades[k])
  }

  lemma {:induction false} PnlOfTrade(c: Config, t: Trade)
    ensures Pnl(c, t) == (Value(t.qty, t.exitPrice) - c.commission) - (Value(t.qty, t.entryPrice) + c.commission)
  {
  }

  lemma {:induction false} ChainExtends(c: Config, bars: seq<Bar>, warmup: nat, trades: seq<Trade>, t: Trade)
    requires Chain(c, bars, warmup, trades) && NextTrade(c, bars, warmup, trades, t)
    ensures Chain(c, bars, warmup, trades + [t])
    ensures CashAfter(c, trades + [t]) == CashAfter(c, trades) + Pnl(c, t)
    ensures FreeFrom(warmup, trades + [t]) == t.exitBar + 1
  {
    var all := trades + [t];
    assert all[..|trades|] == trades;
    forall k | 0 <= k < |all|
      ensures NextTrade(c, bars, warmup, all[..k], all[k])
    {
      if k < |trades| { assert all[..k] == trades[..k]; }
    }
  }

  /** Paying for the next trade and taking its proceeds extends the chain and leaves the
      cash the longer chain implies. */
  lemma {:induction false} TradeSettles(
      c: Config, bars: seq<Bar>, warmup: nat, trades: seq<Trade>, t: Trade, cash: real)
    requires Chain(c, bars, warmup, trades) && NextTrade(c, bars, warmup, trades, t)
    requires cash == CashAfter(c, trades) - (Value(t.qty, t.entryPrice) + c.commission)
    ensures Chain(c, bars, warmup, trades + [t]) && FreeFrom(warmup, trades + [t]) == t.exitBar + 1
    ensures cash + (Value(t.qty, t.exitPrice) - c.commission) == CashAfter(c, trades + [t])
  {
    ChainExtends(c, bars, warmup, trades, t);
    PnlOfTrade(c, t);
  }

  /** The trade that closes what is still open after the last bar. */
  ghost predicate ForcedTrade(c: Config, bars: seq<Bar>, warmup: nat, trades: seq<Trade>, t: Trade) {
    && t.entryBar <= t.exitBar == |bars| - 1
    && Opened(c, bars, warmup, trades, t.entryBar, t.qty)
    && t.entryPrice == bars[t.entryBar].close
    && HoldsUntil(c, bars, t.entryBar, |bars|)
    && t.exitPrice == bars[|bars| - 1].close && t.reason == EndOfData
  }

  /** A complete run: a chain of trades, then either one forced trade or no further entry. */
  ghost predicate CompleteRun(c: Config, bars: seq<Bar>, warmup: nat, trades: seq<Trade>) {
    || (Chain(c, bars, warmup, trades)
        && IdleFrom(c, bars, FreeFrom(warmup, trades), |bars|, CashAfter(c, trades)))
    || (trades != []
        && Chain(c, bars, warmup, trades[..|trades| - 1])
        && ForcedTrade(c, bars, warmup, trades[..|trades| - 1], trades[|trades| - 1]))
  }

  /** What the account holds in cash while the next position is open. */
  function CashWhileOpen(c: Config, trades: seq<Trade>, qty: nat, price: real): real {
    CashAfter(c, trades) - (Value(qty, price) + c.commission)
  }

  /** The equity on bar i that the trades of a run imply: the cash of those closed by then, and
      the marked shares of the one open. The forced trade stays open on the last bar. */
  function EquityOn(c: Config, bars: seq<Bar>, trades: seq<Trade>, i: nat): real
    requires i < |bars|
  {
    if trades == [] then c.initial
    else
      var earlier, t := trades[..|trades| - 1], trades[|trades| - 1];
      if i < t.entryBar then EquityOn(c, bars, earlier, i)
      else if i < t.exitBar || t.reason == EndOfData then
        CashWhileOpen(c, earlier, t.qty, t.entryPrice) + Value(t.qty, bars[i].close)
      else CashAfter(c, trades)
  }

  lemma {:induction false} ForcedCompletes(c: Config, bars: seq<Bar>, warmup: nat, trades: seq<Trade>, t: Trade)
    requires Chain(c, bars, warmup, trades) && ForcedTrade(c, bars, warmup, trades, t)
    ensures CompleteRun(c, bars, warmup, trades + [t])
    ensures CashAfter(c, trades + [t]) == CashWhileOpen(c, trades, t.qty, t.entryPrice)
                                          + (Value(t.qty, t.exitPrice) - c.commission)
  {
    assert (trades + [t])[..|trades|] == trades;
    PnlOfTrade(c, t);
  }

  /** What the account knows of the run so far. */
  datatype Standing = Standing(trades: seq<Trade>, qty: nat, entryBar: nat, entryPrice: real)

  /** The trades so far, with an open position as one that is closed at the end. */
  function Projected(bars: seq<Bar>, s: Standing): seq<Trade>
    requires bars != []
  {
    var last := |bars| - 1;
    if s.qty > 0 then s.trades + [Trade(s.entryBar, last, s.entryPrice, bars[last].close, s.qty, EndOfData)]
    else s.trades
  }

  /** One bar changes nothing, opens a position or closes it. */
  ghost predicate Moves(s: Standing, s': Standing, i: nat) {
    s' == s || Opens(s, s', i) || Closes(s, s', i)
  }

  ghost predicate Opens(s: Standing, s': Standing, i: nat) {
    s.qty == 0 && s'.qty > 0 && s'.trades == s.trades && s'.entryBar == i
  }

  ghost predicate Closes(s: Standing, s': Standing, i: nat) {
    && s.qty > 0 && s'.qty == 0 && s.entryBar < i
    && s'.trades != [] && s'.trades[..|s'.trades| - 1] == s.trades
    && var t := s'.trades[|s'.trades| - 1];
       && t.exitBar == i && t.reason != EndOfData
       && t.entryBar == s.entryBar && t.entryPrice == s.entryPrice && t.qty == s.qty
  }

  lemma {:induction false} TradeCloses(s: Standing, s': Standing, t: Trade, i: nat)
    requires s.qty > 0 && s'.qty == 0 && s.entryBar < i && s'.trades == s.trades + [t]
    requires t.entryBar == s.entryBar && t.entryPrice == s.entryPrice && t.qty == s.qty
    requires t.exitBar == i && t.reason != EndOfData
    ensures Closes(s, s', i)
  {
  }

  /** No later bar changes the equity of an earlier one. */
  lemma {:induction false} EquityKept(c: Config, bars: seq<Bar>, s: Standing, s': Standing, i: nat, k: nat)
    requires k < i < |bars| && Moves(s, s', i)
    ensures EquityOn(c, bars, Projected(bars, s), k) == EquityOn(c, bars, Projected(bars, s'), k)
  {
    var p, p' := Projected(bars, s), Projected(bars, s');
    if s' != s {
      if s.qty == 0 {
        assert p'[..|p'| - 1] == p;
      } else {
        assert p[..|p| - 1] == s.trades && p'[..|p'| - 1] == s.trades;
      }
    }
  }

  ghost predicate SameUpTo(c: Config, bars: seq<Bar>, before: seq<Trade>, after: seq<Trade>, i: nat)
    requires i < |bars|
  {
    forall k :: 0 <= k < i ==> EquityOn(c, bars, before, k) == EquityOn(c, bars, after, k)
  }

  lemma {:induction false} EquitiesKept(c: Config, bars: seq<Bar>, s: Standing, s': Standing, i: nat)
    requires i < |bars| && Moves(s, s', i)
    ensures SameUpTo(c, bars, Projected(bars, s), Projected(bars, s'), i)
  {
    forall k | 0 <= k < i
      ensures EquityOn(c, bars, Projected(bars, s), k) == EquityOn(c, bars, Projected(bars, s'), k)
    {
      EquityKept(c, bars, s, s', i, k);
    }
  }

  /** The equity points from the warmup on are those the trades imply, one after the other. */
  ghost predicate Marked(c: Config, bars: seq<Bar>, warmup: nat, trades: seq<Trade>, equity: seq<real>)
    decreases |equity|
  {
    equity == [] ||
    var n := |equity| - 1;
    && Marked(c, bars, warmup, trades, equity[..n])
    && warmup + n < |bars| && equity[n] == EquityOn(c, bars, trades, warmup + n)
  }

  lemma {:induction false} MarkedPoints(
      c: Config, bars: seq<Bar>, warmup: nat, trades: seq<Trade>, equity: seq<real>, n: nat)
    requires Marked(c, bars, warmup, trades, equity) && n < |equity|
    ensures warmup + n < |bars| && equity[n] == EquityOn(c, bars, trades, warmup + n)
    decreases |equity|
  {
    if n == |equity| - 1 {
    } else {
      MarkedPoints(c, bars, warmup, trades, equity[..|equity| - 1], n);
    }
  }

  lemma {:induction false} MarkedStill(
      c: Config, bars: seq<Bar>, warmup: nat, before: seq<Trade>, after: seq<Trade>, equity: seq<real>, i: nat)
    requires warmup + |equity| <= i < |bars| && Marked(c, bars, warmup, before, equity)
    requires SameUpTo(c, bars, before, after, i)
    ensures Marked(c, bars, warmup, after, equity)
    decreases |equity|
  {
    if equity == [] {
    } else {
      MarkedStill(c, bars, warmup, before, after, equity[..|equity| - 1], i);
    }
  }

  lemma {:induction false} MarkedExtends(
      c: Config, bars: seq<Bar>, warmup: nat, before: seq<Trade>, after: seq<Trade>, equity: seq<real>, point: real)
    requires warmup + |equity| < |bars| && Marked(c, bars, warmup, before, equity)
    requires SameUpTo(c, bars, before, after, warmup + |equity|)
    requires point == EquityOn(c, bars, after, warmup + |equity|)
    ensures Marked(c, bars, warmup, after, equity + [point])
  {
    MarkedStill(c, bars, warmup, before, after, equity, warmup + |equity|);
    assert (equity + [point])[..|equity|] == equity;
  }

  ghost predicate Forced(trades: seq<Trade>) { trades != [] && trades[|trades| - 1].reason == EndOfData }

  // ------------------------------------------------------------------ the program

  datatype Report = NotEnoughBars | Report(trades: seq<Trade>, cash: real, equity: seq<real>)

  class Account {
    var cash: real
    var qty: nat
    var entryPrice: real
    var entryBar: nat
    var slPrice: real
    var tpPrice: real
    var hardStop: real
    var watermark: real
    var trades: seq<Trade>

    constructor (initial: real)
      ensures cash == initial && qty == 0 && trades == [] && slPrice == tpPrice == 0.0
    {
      cash, qty, trades := initial, 0, [];
      entryPrice, entryBar, slPrice, tpPrice, hardStop, watermark := 0.0, 0, 0.0, 0.0, 0.0, 0.0;
    }

    /** A position is open, and what was paid for it is out of the cash. */
    ghost predicate Holding(c: Config, bars: seq<Bar>, warmup: nat, i: nat)
      reads this
      requires i <= |bars|
    {
      && qty > 0 && entryBar < i
      && Opened(c, bars, warmup, trades, entryBar, qty)
      && HoldsUntil(c, bars, entryBar, i)
      && entryPrice == bars[entryBar].close
      && cash == CashAfter(c, trades) - (Value(qty, entryPrice) + c.commission)
    }

    /** The levels of the exit mode, the watermark up to bar j. */
    ghost predicate Levels(c: Config, bars: seq<Bar>, j: nat)
      reads this
    {
      && entryBar <= j < |bars| && entryPrice == bars[entryBar].close
      && (c.atrTrail ==> hardStop == HardStopFor(c, bars[entryBar]) && watermark == Watermark(bars, entryBar, j))
      && (!c.atrTrail ==> slPrice == StopPrice(c, entryPrice) && tpPrice == TargetPrice(c, entryPrice))
    }

    /** The state variables before bar i say what the bars so far imply. */
    ghost predicate Consistent(c: Config, bars: seq<Bar>, warmup: nat, i: nat)
      reads this
      requires i <= |bars|
    {
      && Chain(c, bars, warmup, trades)
      && FreeFrom(warmup, trades) <= i
      && if qty == 0 then
           && cash == CashAfter(c, trades) && slPrice == tpPrice == 0.0
           && IdleFrom(c, bars, FreeFrom(warmup, trades), i, cash)
         else
           Holding(c, bars, warmup, i) && Levels(c, bars, i - 1)
    }

    ghost function Stands(): Standing
      reads this
    {
      Standing(trades, qty, entryBar, entryPrice)
    }

    /** The equity marked on bar i is the one its trades imply. */
    lemma {:induction false} MarkedEquity(c: Config, bars: seq<Bar>, warmup: nat, i: nat)
      requires i < |bars| && Consistent(c, bars, warmup, i + 1)
      ensures EquityOn(c, bars, Projected(bars, Stands()), i) == cash + Value(qty, bars[i].close)
    {
      var p := Projected(bars, Stands());
      if qty > 0 {
        assert p[..|p| - 1] == trades;
      } else if trades != [] {
        ReasonsAreRegular(c, bars, warmup, trades);
        assert NextTrade(c, bars, warmup, trades[..|trades| - 1], trades[|trades| - 1]);
      }
    }

    /** Raise the watermark, then look for an exit, in the order of the source. */
    method DecideExit(c: Config, bars: seq<Bar>, i: nat) returns (exit: Option<(real, ExitReason)>)
      requires qty > 0 && entryBar < i < |bars| && Levels(c, bars, i - 1)
      modifies this`watermark
      ensures exit == ExitAt(c, bars, entryBar, i)
      ensures Levels(c, bars, i)
    {
      var bar := bars[i];
      exit := None;
      if c.atrTrail {
        if bar.close > watermark { watermark := bar.close; }
        var reason := CheckAtrExits(bar.reading, hardStop, watermark, TrailMult(c), BUY);
        if reason.Some? {
          exit := Some((bar.close, Atr(reason.value)));
        }
      } else {
        if c.stopLossPct > 0.0 && slPrice > 0.0 {
          if bar.low <= slPrice {
            exit := Some((Min(slPrice, bar.open), StopLoss));
          }
        }
        if exit.None? && c.takeProfitPct > 0.0 && tpPrice > 0.0 {
          if bar.high >= tpPrice {
            exit := Some((Max(tpPrice, bar.open), TakeProfit));
          }
        }
      }
      if exit.None? && c.exits.Some? {
        if Holds(c.exits.value, bars[..i + 1]) {
          exit := Some((bar.close, ExitSignal));
        }
      }
    }

    /** Book the exit and clear the position. */
    method ClosePosition(c: Config, i: nat, exitPrice: real, reason: ExitReason)
      modifies this
      ensures trades == old(trades) + [Trade(old(entryBar), i, old(entryPrice), exitPrice, old(qty), reason)]
      ensures cash == old(cash) + (Value(old(qty), exitPrice) - c.commission)
      ensures qty == 0 && entryPrice == slPrice == tpPrice == hardStop == watermark == 0.0
    {
      cash := cash + (Value(qty, exitPrice) - c.commission);
      trades := trades + [Trade(entryBar, i, entryPrice, exitPrice, qty, reason)];
      qty, entryPrice, slPrice, tpPrice, hardStop, watermark := 0, 0.0, 0.0, 0.0, 0.0, 0.0;
    }

    /** Book the exit decided on bar i. */
    method Settle(c: Config, bars: seq<Bar>, warmup: nat, i: nat, exitPrice: real, reason: ExitReason)
      requires i < |bars| && Chain(c, bars, warmup, trades) && Holding(c, bars, warmup, i)
      requires ExitAt(c, bars, entryBar, i) == Some((exitPrice, reason))
      modifies this
      ensures qty == 0 && Consistent(c, bars, warmup, i + 1) && Closes(old(Stands()), Stands(), i)
    {
      ghost var trade := Trade(entryBar, i, entryPrice, exitPrice, qty, reason);
      TradeSettles(c, bars, warmup, trades, trade, cash);
      ClosePosition(c, i, exitPrice, reason);
      TradeCloses(old(Stands()), Stands(), trade, i);
    }

    /** A bar without an exit. */
    lemma {:induction false} StillHolding(c: Config, bars: seq<Bar>, warmup: nat, i: nat)
      requires i < |bars| && Chain(c, bars, warmup, trades) && Holding(c, bars, warmup, i) && Levels(c, bars, i)
      requires ExitAt(c, bars, entryBar, i).None?
      ensures Consistent(c, bars, warmup, i + 1)
    {
    }

    /** The exit half of the loop body. */
    method TryExit(c: Config, bars: seq<Bar>, warmup: nat, i: nat) returns (justExited: bool)
      requires i < |bars| && Consistent(c, bars, warmup, i)
      modifies this
      ensures if justExited then Closes(old(Stands()), Stands(), i) else Stands() == old(Stands())
      ensures Consistent(c, bars, warmup, if justExited || qty > 0 then i + 1 else i)
    {
      justExited := false;
      if qty > 0 {
        var exit := DecideExit(c, bars, i);
        if exit.Some? {
          Settle(c, bars, warmup, i, exit.value.0, exit.value.1);
          justExited := true;
        } else {
          StillHolding(c, bars, warmup, i);
        }
      }
    }

    /** Pay for the shares and set the levels of the exit mode. */
    method Buy(c: Config, bar: Bar, i: nat, shares: nat)
      requires qty == 0 && slPrice == tpPrice == 0.0
      modifies this
      ensures Stands() == Standing(old(trades), shares, i, bar.close)
      ensures cash == old(cash) - (Value(shares, bar.close) + c.commission)
      ensures c.atrTrail ==> hardStop == HardStopFor(c, bar) && watermark == bar.close
      ensures !c.atrTrail ==> slPrice == StopPrice(c, bar.close) && tpPrice == TargetPrice(c, bar.close)
    {
      var cost := Value(shares, bar.close) + c.commission;
      cash := cash - cost;
      qty := shares;
      entryPrice := bar.close;
      entryBar := i;
      if c.atrTrail {
        var atr := 0.0;
        if bar.reading.bars >= 14 {
          if bar.reading.atr.Some? { atr := bar.reading.atr.value; }
        }
        hardStop := if atr > 0.0 then entryPrice - StopMult(c) * atr else entryPrice * 0.97;
        watermark := entryPrice;
      } else {
        slPrice := if c.stopLossPct > 0.0 then LessPct(entryPrice, c.stopLossPct) else slPrice;
        tpPrice := if c.takeProfitPct > 0.0 then PlusPct(entryPrice, c.takeProfitPct) else tpPrice;
      }
    }

    /** The entry half of the loop body, for a flat account that did not exit on this bar. */
    method TryEnter(c: Config, bars: seq<Bar>, warmup: nat, i: nat)
      requires i < |bars| && qty == 0 && Consistent(c, bars, warmup, i)
      modifies this
      ensures Consistent(c, bars, warmup, i + 1)
      ensures Stands() == old(Stands()) || Opens(old(Stands()), Stands(), i)
    {
      var bar := bars[i];
      if Holds(c.entry, bars[..i + 1]) {
        var available := Share(c.sizePct, cash);
        var shares := if bar.close > 0.0 then Quotient(available, bar.close).Floor else 0;
        if shares > 0 {
          Buy(c, bar, i, shares);
        }
      }
    }

    /** The loop body: no entry on the bar of an exit. */
    method ProcessBar(c: Config, bars: seq<Bar>, warmup: nat, i: nat)
      requires i < |bars| && Consistent(c, bars, warmup, i)
      modifies this
      ensures Consistent(c, bars, warmup, i + 1)
      ensures Moves(old(Stands()), Stands(), i)
    {
      var justExited := TryExit(c, bars, warmup, i);
      if qty == 0 && !justExited {
        TryEnter(c, bars, warmup, i);
      }
    }

    /** The bars of the equity points are played, and the points are what the trades imply. */
    ghost predicate Played(c: Config, bars: seq<Bar>, warmup: nat, equity: seq<real>)
      reads this
    {
      && 0 < |bars| && warmup + |equity| <= |bars|
      && Consistent(c, bars, warmup, warmup + |equity|)
      && Marked(c, bars, warmup, Projected(bars, Stands()), equity)
    }

    lemma {:induction false} PlayedLonger(
        c: Config, bars: seq<Bar>, warmup: nat, i: nat, before: seq<Trade>, equity: seq<real>, point: real)
      requires i == warmup + |equity| < |bars| && Consistent(c, bars, warmup, i + 1)
      requires Marked(c, bars, warmup, before, equity)
      requires SameUpTo(c, bars, before, Projected(bars, Stands()), i)
      requires point == EquityOn(c, bars, Projected(bars, Stands()), i)
      ensures Played(c, bars, warmup, equity + [point])
    {
      MarkedExtends(c, bars, warmup, before, Projected(bars, Stands()), equity, point);
    }

    /** One turn of the loop, and the equity it marks. */
    method MarkBar(c: Config, bars: seq<Bar>, warmup: nat, i: nat) returns (point: real)
      requires warmup <= i < |bars| && Consistent(c, bars, warmup, i)
      modifies this
      ensures Consistent(c, bars, warmup, i + 1)
      ensures SameUpTo(c, bars, old(Projected(bars, Stands())), Projected(bars, Stands()), i)
      ensures point == EquityOn(c, bars, Projected(bars, Stands()), i)
    {
      ProcessBar(c, bars, warmup, i);
      MarkedEquity(c, bars, warmup, i);
      EquitiesKept(c, bars, old(Stands()), Stands(), i);
      point := cash + Value(qty, bars[i].close);
    }

    method PlayBar(c: Config, bars: seq<Bar>, warmup: nat, equity: seq<real>) returns (longer: seq<real>)
      requires Played(c, bars, warmup, equity) && warmup + |equity| < |bars|
      modifies this
      ensures Played(c, bars, warmup, longer) && |longer| == |equity| + 1
    {
      var i := warmup + |equity|;
      ghost var before := Projected(bars, Stands());
      var point := MarkBar(c, bars, warmup, i);
      PlayedLonger(c, bars, warmup, i, before, equity, point);
      longer := equity + [point];
    }

    /** The loop over the bars. */
    method PlayBars(c: Config, bars: seq<Bar>, warmup: nat) returns (equity: seq<real>)
      requires warmup < |bars| && Played(c, bars, warmup, [])
      modifies this
      ensures Played(c, bars, warmup, equity) && |equity| == |bars| - warmup
    {
      equity := [];
      for i := warmup to |bars|
        invariant Played(c, bars, warmup, equity) && |equity| == i - warmup
      {
        equity := PlayBar(c, bars, warmup, equity);
      }
    }

    /** Close what is still open at the last close. */
    method ForceClose(c: Config, bars: seq<Bar>, warmup: nat) returns (all: seq<Trade>, left: real)
      requires bars != [] && Consistent(c, bars, warmup, |bars|)
      ensures CompleteRun(c, bars, warmup, all)
      ensures all == Projected(bars, Stands())
      ensures left == CashAfter(c, all)
    {
      all, left := trades, cash;
      if qty > 0 {
        var lastClose := bars[|bars| - 1].close;
        all := trades + [Trade(entryBar, |bars| - 1, entryPrice, lastClose, qty, EndOfData)];
        left := cash + (Value(qty, lastClose) - c.commission);
        ForcedCompletes(c, bars, warmup, trades, all[|trades|]);
      }
    }
  }

  /** A complete run, the cash its trades leave, and the equity they imply; the last point
      exceeds the cash by one commission exactly when the last trade was forced. */
  ghost predicate Reports(
      c: Config, bars: seq<Bar>, warmup: nat, trades: seq<Trade>, cash: real, equity: seq<real>) {
    && CompleteRun(c, bars, warmup, trades) && cash == CashAfter(c, trades)
    && |bars| - warmup == |equity| > 0
    && (forall n :: 0 <= n < |equity| ==> equity[n] == EquityOn(c, bars, trades, warmup + n))
    && equity[|equity| - 1] == cash + if Forced(trades) then c.commission else 0.0
  }

  /** On the last bar the mark of a forced trade is short of its closing commission only. */
  lemma {:induction false} LastEquity(
      c: Config, bars: seq<Bar>, warmup: nat, trades: seq<Trade>, equity: seq<real>)
    requires warmup < |bars| && CompleteRun(c, bars, warmup, trades)
    requires |equity| == |bars| - warmup && Marked(c, bars, warmup, trades, equity)
    ensures Reports(c, bars, warmup, trades, CashAfter(c, trades), equity)
  {
    forall n | 0 <= n < |equity| ensures equity[n] == EquityOn(c, bars, trades, warmup + n) {
      MarkedPoints(c, bars, warmup, trades, equity, n);
    }
    LastPoint(c, bars, warmup, trades);
  }

  lemma {:induction false} LastPoint(c: Config, bars: seq<Bar>, warmup: nat, trades: seq<Trade>)
    requires warmup < |bars| && CompleteRun(c, bars, warmup, trades)
    ensures EquityOn(c, bars, trades, |bars| - 1)
         == CashAfter(c, trades) + if Forced(trades) then c.commission else 0.0
  {
    if trades != [] {
      var t, n := trades[|trades| - 1], |trades| - 1;
      if Chain(c, bars, warmup, trades) {
        ReasonsAreRegular(c, bars, warmup, trades);
        assert NextTrade(c, bars, warmup, trades[..n], t);
      }
      PnlOfTrade(c, t);
    }
  }

  /** `run_backtest` after the data is fetched. */
  method RunBacktest(c: Config, bars: seq<Bar>, warmup: nat) returns (r: Report)
    ensures r.NotEnoughBars? <==> |bars| < warmup + 20
    ensures r.Report? ==> Reports(c, bars, warmup, r.trades, r.cash, r.equity)
  {
    if |bars| < warmup + MIN_BARS_AFTER_WARMUP { return NotEnoughBars; }
    var a := new Account(c.initial);
    var equity := a.PlayBars(c, bars, warmup);
    var trades, cash := a.ForceClose(c, bars, warmup);
    LastEquity(c, bars, warmup, trades, equity);
    r := Report(trades, cash, equity);
  }

  /** Only the forced trade carries the reason of the end of data. */
  lemma {:induction false} ReasonsAreRegular(c: Config, bars: seq<Bar>, warmup: nat, trades: seq<Trade>)
    requires Chain(c, bars, warmup, trades)
    ensures !Forced(trades)
  {
    if trades != [] {
      var k := |trades| - 1;
      assert NextTrade(c, bars, warmup, trades[..k], trades[k]);
    }
  }
}
