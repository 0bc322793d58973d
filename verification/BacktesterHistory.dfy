/** No look-ahead in `run_backtest`: what later bars hold does not reach back. */
module BacktesterHistory {
  import opened Money
  import opened Options
  import opened Backtester
  import opened BacktesterTheorems

  /** Two histories that agree on their first n bars. */
  ghost predicate SameStart(a: seq<Bar>, b: seq<Bar>, n: nat) { n <= |a| && n <= |b| && a[..n] == b[..n] }

  lemma {:induction false} SameBar(a: seq<Bar>, b: seq<Bar>, n: nat, j: nat)
    requires SameStart(a, b, n) && j < n
    ensures a[j] == b[j] && a[..j + 1] == b[..j + 1]
  {
    assert a[..n][j] == b[..n][j];
    assert a[..n][..j + 1] == a[..j + 1] && b[..n][..j + 1] == b[..j + 1];
  }

  lemma {:induction false} SameWatermark(a: seq<Bar>, b: seq<Bar>, n: nat, e: nat, j: nat)
    requires SameStart(a, b, n) && e <= j < n
    ensures Watermark(a, e, j) == Watermark(b, e, j)
    decreases j
  {
    SameBar(a, b, n, j);
    if j == e {
    } else {
      SameWatermark(a, b, n, e, j - 1);
    }
  }

  lemma {:induction false} SameEntryQty(c: Config, a: seq<Bar>, b: seq<Bar>, n: nat, j: nat, cash: real)
    requires SameStart(a, b, n) && j < n
    ensures EntryQty(c, a, j, cash) == EntryQty(c, b, j, cash)
  {
    SameBar(a, b, n, j);
  }

  lemma {:induction false} SameExitAt(c: Config, a: seq<Bar>, b: seq<Bar>, n: nat, e: nat, j: nat)
    requires SameStart(a, b, n) && e < j < n
    ensures ExitAt(c, a, e, j) == ExitAt(c, b, e, j)
  {
    SameBar(a, b, n, e);
    SameBar(a, b, n, j);
    SameWatermark(a, b, n, e, j);
  }

  lemma {:induction false} OpenedCarries(
      c: Config, a: seq<Bar>, b: seq<Bar>, n: nat, warmup: nat, trades: seq<Trade>, e: nat, qty: nat)
    requires SameStart(a, b, n) && e < n && Opened(c, a, warmup, trades, e, qty)
    ensures Opened(c, b, warmup, trades, e, qty)
  {
    var cash := CashAfter(c, trades);
    SameEntryQty(c, a, b, n, e, cash);
    forall j | FreeFrom(warmup, trades) <= j < e ensures EntryQty(c, b, j, cash) == 0 {
      SameEntryQty(c, a, b, n, j, cash);
    }
  }

  lemma {:induction false} NextTradeCarries(
      c: Config, a: seq<Bar>, b: seq<Bar>, n: nat, warmup: nat, trades: seq<Trade>, t: Trade)
    requires SameStart(a, b, n) && t.exitBar < n && NextTrade(c, a, warmup, trades, t)
    ensures NextTrade(c, b, warmup, trades, t)
  {
    OpenedCarries(c, a, b, n, warmup, trades, t.entryBar, t.qty);
    SameBar(a, b, n, t.entryBar);
    SameExitAt(c, a, b, n, t.entryBar, t.exitBar);
    forall k | t.entryBar < k < t.exitBar ensures ExitAt(c, b, t.entryBar, k).None? {
      SameExitAt(c, a, b, n, t.entryBar, k);
    }
  }

  // ------------------------------------------------------------------ closed trades

  predicate ClosedBy(trades: seq<Trade>, k: nat, i: nat) {
    k < |trades| && trades[k].exitBar <= i && trades[k].reason != EndOfData
  }

  /** The trade before a closed one is closed. */
  lemma {:induction false} ClosedBefore(c: Config, bars: seq<Bar>, warmup: nat, trades: seq<Trade>, k: nat, j: nat, i: nat)
    requires CompleteRun(c, bars, warmup, trades) && j <= k && ClosedBy(trades, k, i)
    ensures ClosedBy(trades, j, i)
  {
    TradesOrdered(c, bars, warmup, trades);
    TradeOfRun(c, bars, warmup, trades, j);
  }

  /** A run that consists of these trades has not closed by force, and opens nothing more. */
  lemma {:induction false} NothingAfter(
      c: Config, bars: seq<Bar>, warmup: nat, trades: seq<Trade>, e: nat, qty: nat, i: nat)
    requires CompleteRun(c, bars, warmup, trades) && e < |bars|
    requires trades == [] || ClosedBy(trades, |trades| - 1, i)
    ensures !Opened(c, bars, warmup, trades, e, qty)
  {
    RegularPart(c, bars, warmup, trades);
  }

  /** Trade k closed on the common bars is trade k of the other run. */
  lemma {:induction false} SameClosed(
      c: Config, a: seq<Bar>, b: seq<Bar>, n: nat, warmup: nat, ta: seq<Trade>, tb: seq<Trade>, k: nat, i: nat)
    requires SameStart(a, b, n) && i < n
    requires CompleteRun(c, a, warmup, ta) && CompleteRun(c, b, warmup, tb)
    requires ClosedBy(ta, k, i)
    ensures k < |tb| && tb[..k + 1] == ta[..k + 1]
  {
    if k == 0 {
      assert tb[..0] == ta[..0];
    } else {
      ClosedBefore(c, a, warmup, ta, k, k - 1, i);
      SameClosed(c, a, b, n, warmup, ta, tb, k - 1, i);
    }
    var t := ta[k];
    TradeOfRun(c, a, warmup, ta, k);
    NextTradeCarries(c, a, b, n, warmup, ta[..k], t);
    assert tb[..k] == ta[..k];
    if k == |tb| {
      assert tb[..k] == tb;
      NothingAfter(c, b, warmup, tb, t.entryBar, t.qty, i);
    } else {
      TradeOfRun(c, b, warmup, tb, k);
      if NextTrade(c, b, warmup, tb[..k], tb[k]) {
        NextTradeUnique(c, b, warmup, tb[..k], t, tb[k]);
      } else {
        ForcedExcludesNext(c, b, warmup, tb[..k], tb[k], t);
      }
      OneLonger(ta, k);
      OneLonger(tb, k);
    }
  }

  // ------------------------------------------------------------------ equity

  /** Exactly the first k trades are closed by bar i. */
  predicate ClosedCount(trades: seq<Trade>, k: nat, i: nat) {
    k <= |trades| && (k > 0 ==> ClosedBy(trades, k - 1, i)) && !ClosedBy(trades, k, i)
  }

  lemma {:induction false} CountClosed(trades: seq<Trade>, n: nat, i: nat) returns (k: nat)
    requires n <= |trades| && !ClosedBy(trades, n, i)
    ensures ClosedCount(trades, k, i)
  {
    if n == 0 || ClosedBy(trades, n - 1, i) {
      k := n;
    } else {
      k := CountClosed(trades, n - 1, i);
    }
  }

  /** The equity of bar i in terms of the trades closed by then and the one after them. */
  function EquityFrom(c: Config, bars: seq<Bar>, trades: seq<Trade>, k: nat, i: nat): real
    requires k <= |trades| && i < |bars|
  {
    if k < |trades| && trades[k].entryBar <= i then
      CashWhileOpen(c, trades[..k], trades[k].qty, trades[k].entryPrice) + Value(trades[k].qty, bars[i].close)
    else CashAfter(c, trades[..k])
  }

  lemma {:induction false} OpensLater(
      c: Config, bars: seq<Bar>, warmup: nat, trades: seq<Trade>, k: nat, m: nat, i: nat)
    requires CompleteRun(c, bars, warmup, trades) && ClosedCount(trades, k, i) && k < m < |trades|
    ensures trades[m].entryBar > i
  {
    TradesOrdered(c, bars, warmup, trades);
    TradeOfRun(c, bars, warmup, trades, k);
  }

  lemma {:induction false} ClosedTradeBefore(
      c: Config, bars: seq<Bar>, warmup: nat, trades: seq<Trade>, k: nat, i: nat)
    requires CompleteRun(c, bars, warmup, trades) && 0 < k <= |trades| && ClosedBy(trades, k - 1, i)
    ensures trades[k - 1].entryBar <= i
  {
    TradesOrdered(c, bars, warmup, trades);
  }

  /** The equity by its last trade. */
  lemma {:induction false} EquityOnLast(c: Config, bars: seq<Bar>, trades: seq<Trade>, t: Trade, i: nat)
    requires i < |bars|
    ensures EquityOn(c, bars, trades + [t], i)
         == if i < t.entryBar then EquityOn(c, bars, trades, i)
            else if i < t.exitBar || t.reason == EndOfData then
              CashWhileOpen(c, trades, t.qty, t.entryPrice) + Value(t.qty, bars[i].close)
            else CashAfter(c, trades + [t])
  {
    assert (trades + [t])[..|trades|] == trades;
  }

  lemma {:induction false} EquityOfPrefix(
      c: Config, bars: seq<Bar>, warmup: nat, trades: seq<Trade>, k: nat, m: nat, i: nat)
    requires CompleteRun(c, bars, warmup, trades) && i < |bars|
    requires ClosedCount(trades, k, i) && k <= m <= |trades|
    ensures EquityOn(c, bars, trades[..m], i)
         == if m == k then CashAfter(c, trades[..k]) else EquityFrom(c, bars, trades, k, i)
    decreases m
  {
    if m == 0 {
    } else {
      OneLonger(trades, m - 1);
      EquityOnLast(c, bars, trades[..m - 1], trades[m - 1], i);
      if m == k {
        ClosedTradeBefore(c, bars, warmup, trades, k, i);
      } else {
        EquityOfPrefix(c, bars, warmup, trades, k, m - 1, i);
        if m - 1 > k { OpensLater(c, bars, warmup, trades, k, m - 1, i); }
      }
    }
  }

  /** What is open on a common bar is open in the other run. */
  lemma {:induction false} SameOpen(
      c: Config, a: seq<Bar>, b: seq<Bar>, n: nat, warmup: nat, ta: seq<Trade>, tb: seq<Trade>, k: nat, i: nat)
    requires SameStart(a, b, n) && i < n
    requires CompleteRun(c, a, warmup, ta) && CompleteRun(c, b, warmup, tb)
    requires ClosedCount(tb, k, i) && k < |ta| && ta[..k] == tb[..k] && ta[k].entryBar <= i
    ensures k < |tb| && tb[k].entryBar == ta[k].entryBar
    ensures tb[k].qty == ta[k].qty && tb[k].entryPrice == ta[k].entryPrice
  {
    var t := ta[k];
    TradeOfRun(c, a, warmup, ta, k);
    OpenedCarries(c, a, b, n, warmup, ta[..k], t.entryBar, t.qty);
    SameBar(a, b, n, t.entryBar);
    if k == |tb| {
      assert tb[..k] == tb;
      NothingAfter(c, b, warmup, tb, t.entryBar, t.qty, i);
    } else {
      TradeOfRun(c, b, warmup, tb, k);
      SameEntry(c, b, warmup, tb[..k], t.entryBar, t.qty, tb[k].entryBar, tb[k].qty);
    }
  }

  lemma {:induction false} SameCount(
      c: Config, a: seq<Bar>, b: seq<Bar>, n: nat, warmup: nat, ta: seq<Trade>, tb: seq<Trade>, k: nat, i: nat)
    requires SameStart(a, b, n) && i < n
    requires CompleteRun(c, a, warmup, ta) && CompleteRun(c, b, warmup, tb) && ClosedCount(ta, k, i)
    ensures ClosedCount(tb, k, i) && ta[..k] == tb[..k]
  {
    if k == 0 {
      assert tb[..0] == ta[..0];
    } else {
      SameClosed(c, a, b, n, warmup, ta, tb, k - 1, i);
      assert tb[k - 1] == tb[..k][k - 1] && ta[k - 1] == ta[..k][k - 1];
    }
    if ClosedBy(tb, k, i) {
      SameClosed(c, b, a, n, warmup, tb, ta, k, i);
    }
  }

  /** Histories that agree on their first n bars, whatever follows and however long it is, have
      the same equity on each of those bars, and the trades closed on them are the same. */
  lemma {:induction false} NoLookAhead(
      c: Config, a: seq<Bar>, b: seq<Bar>, n: nat, warmup: nat, ta: seq<Trade>, tb: seq<Trade>, i: nat)
    requires SameStart(a, b, n) && i < n
    requires CompleteRun(c, a, warmup, ta) && CompleteRun(c, b, warmup, tb)
    ensures EquityOn(c, a, ta, i) == EquityOn(c, b, tb, i)
    ensures exists k: nat :: ClosedCount(ta, k, i) && ClosedCount(tb, k, i) && ta[..k] == tb[..k]
  {
    var k := CountClosed(ta, |ta|, i);
    SameCount(c, a, b, n, warmup, ta, tb, k, i);
    SameBar(a, b, n, i);
    EquityOfPrefix(c, a, warmup, ta, k, |ta|, i);
    EquityOfPrefix(c, b, warmup, tb, k, |tb|, i);
    assert ta[..|ta|] == ta && tb[..|tb|] == tb;
    if k < |ta| && ta[k].entryBar <= i { SameOpen(c, a, b, n, warmup, ta, tb, k, i); }
    if k < |tb| && tb[k].entryBar <= i { SameOpen(c, b, a, n, warmup, tb, ta, k, i); }
  }
}
