/** Accounting and look-ahead over whole runs of the event-driven engine. */
module EngineAccounting {
  import opened Money
  import opened Options
  import opened Events
  import opened MarketData
  import opened Ledger
  import opened EventLoop
  import opened Engine
  import opened EngineTheorems
  import opened Symbols

  // ------------------------------------------------------------------ accounting

  lemma {:induction false} ApplyFillsKeepsBalance(b: Book, fills: seq<Event>, initial: real, commission: real)
    requires Balanced(b, initial, commission)
    requires forall e :: e in fills ==> e.Fill? && e.commission == commission
    ensures Balanced(ApplyFills(b, fills), initial, commission)
    decreases |fills|
  {
    if fills == [] {
    } else {
      assert fills[0] in fills;
      FillKeepsBalance(b, fills[0], initial);
      ApplyFillsKeepsBalance(FillBook(b, fills[0]), fills[1..], initial, commission);
    }
  }

  /** One holding per symbol, each of at least one share and quoted. */
  predicate Sound(b: Book, quotes: map<Symbol, Quote>) {
    && OnePerSymbol(b.holdings)
    && forall h :: h in b.holdings ==> h.qty >= 1 && h.symbol in quotes
  }

  lemma {:induction false} FillKeepsSound(b: Book, f: Event, quotes: map<Symbol, Quote>)
    requires f.Fill? && Sound(b, quotes)
    requires Held(b.holdings, f.symbol) || (f.quantity >= 1 && f.symbol in quotes)
    ensures Sound(FillBook(b, f), quotes)
  {
    FillTouchesOneSymbol(b, f, f.symbol);
    var after := FillBook(b, f).holdings;
    forall h | h in after
      ensures h.qty >= 1 && h.symbol in quotes
    {
      assert h in b.holdings || h == Holding(f.symbol, f.quantity, f.fillPrice, f.timestamp);
    }
  }

  lemma {:induction false} FillsKeepSound(setup: Setup, v: View, now: Book, b: Book, fills: seq<Event>)
    requires Sound(b, v.quotes) && DistinctSymbols(fills) && OnePerSymbol(now.holdings)
    requires forall f :: f in fills ==> f.Fill? && EngineFill(setup, v, now, f)
    requires forall f :: f in fills ==> (Held(b.holdings, f.symbol) <==> Held(now.holdings, f.symbol))
    ensures Sound(ApplyFills(b, fills), v.quotes)
    decreases |fills|
  {
    if fills == [] {
    } else {
      var f := fills[0];
      assert f in fills;
      FillKeepsSound(b, f, v.quotes);
      forall x | x in fills[1..]
        ensures Held(FillBook(b, f).holdings, x.symbol) <==> Held(now.holdings, x.symbol)
      {
        var k :| 0 <= k < |fills[1..]| && fills[1..][k] == x;
        assert fills[k + 1] == x;
        FillTouchesOneSymbol(b, f, x.symbol);
      }
      FillsKeepSound(setup, v, now, FillBook(b, f), fills[1..]);
    }
  }

  /** Latest prices and current bars show the same closes. */
  predicate SameCloses(s: Sim) {
    s.latest.Keys == s.quotes.Keys && forall x :: x in s.quotes ==> s.latest[x] == s.quotes[x].close
  }

  lemma {:induction false} PublishedCloses(events: seq<Event>)
    requires forall e :: e in events ==> e.Market?
    ensures PricesFrom(events).Keys == QuotesFrom(events).Keys
    ensures forall x :: x in QuotesFrom(events) ==> PricesFrom(events)[x] == QuotesFrom(events)[x].close
  {
    if events == [] {
    } else {
      PublishedCloses(events[..|events| - 1]);
    }
  }

  lemma {:induction false} EventsAtSymbols(bars: seq<History>, date: int, k: nat)
    requires k < |EventsAt(bars, date)|
    ensures exists i :: 0 <= i < |bars| && bars[i].symbol == EventsAt(bars, date)[k].symbol
  {
    var init := bars[..|bars| - 1];
    if k < |EventsAt(init, date)| {
      EventsAtSymbols(init, date, k);
      var i :| 0 <= i < |init| && init[i].symbol == EventsAt(init, date)[k].symbol;
      assert bars[i] == init[i];
    } else {
      assert bars[|bars| - 1].symbol == EventsAt(bars, date)[k].symbol;
    }
  }

  lemma {:induction false} EventsAtDistinct(bars: seq<History>, date: int)
    requires DistinctHistories(bars)
    ensures DistinctSymbols(EventsAt(bars, date))
  {
    if bars == [] {
    } else {
      var init, last := bars[..|bars| - 1], bars[|bars| - 1];
      EventsAtDistinct(init, date);
      forall k | 0 <= k < |EventsAt(init, date)|
        ensures EventsAt(init, date)[k].symbol != last.symbol
      {
        EventsAtSymbols(init, date, k);
        var i :| 0 <= i < |init| && init[i].symbol == EventsAt(init, date)[k].symbol;
        assert init[i] == bars[i];
      }
    }
  }

  /** What every reachable state satisfies. */
  ghost predicate Invariant(setup: Setup, s: Sim) {
    && Balanced(s.book, setup.initial, setup.commission)
    && Sound(s.book, s.quotes)
    && SameCloses(s)
    && s.equity == s.book.cash + Marked(s.book.holdings, s.latest)
  }

  lemma {:induction false} BarsKeepInvariant(setup: Setup, bars: seq<History>, index: nat, s: Sim, events: seq<Event>)
    requires Invariant(setup, s) && events != [] && DistinctSymbols(events)
    requires forall e :: e in events ==> e.Market?
    ensures Invariant(setup, Bars(setup, bars, index, s, events))
  {
    var quotes := s.quotes + QuotesFrom(events);
    var v := View(bars, index, quotes, s.equity);
    var g := Handlers(setup, v);
    var f := Fills(g, s.book, events);
    assert AllRank(events, 0) by { assert forall k :: 0 <= k < |events| ==> events[k] in events; }
    PhaseOrdered(g, s.book, events);
    PhaseRanks(g, s.book, events);
    FillsAreEngineFills(setup, v, s.book, events);
    ApplyFillsKeepsBalance(s.book, f, setup.initial, setup.commission);
    FillsKeepSound(setup, v, s.book, s.book, f);
    PublishedCloses(events);
  }

  predicate DistinctHistories(bars: seq<History>) {
    forall i, j :: 0 <= i < j < |bars| ==> bars[i].symbol != bars[j].symbol
  }

  lemma {:induction false} DayKeepsInvariant(setup: Setup, f: Feed, s: Sim, k: nat)
    requires DistinctHistories(f.bars) && k < |f.dates| && Invariant(setup, s)
    ensures Invariant(setup, Day(setup, f, s, k))
  {
    EventsAtDistinct(f.bars, f.dates[k]);
    var events := EventsAt(f.bars, f.dates[k]);
    if events != [] { BarsKeepInvariant(setup, f.bars, k + 1, s, events); }
  }

  /** What every step keeps, every run keeps. */
  lemma {:induction false} RepeatedKeeps(step: DayStep, kept: Sim -> bool, s: Sim, k: nat)
    requires kept(s) && forall t: Sim, i: nat :: kept(t) && i < k ==> kept(step(t, i))
    ensures kept(Repeated(step, s, k))
    decreases k
  {
    if k == 0 {
    } else {
      RepeatedKeeps(step, kept, s, k - 1);
    }
  }

  /** Over every run: cash is initial capital plus unrounded closed P&L minus the cost
      basis and entry commission of what is open; the equity is cash plus marks. */
  lemma {:induction false} RunInvariant(setup: Setup, f: Feed, k: nat)
    requires Loaded(f) && k <= |f.dates|
    ensures Invariant(setup, After(setup, f, k))
  {
    var step, kept := Days(setup, f), (s: Sim) => Invariant(setup, s);
    forall s: Sim, i: nat | kept(s) && i < k ensures kept(step(s, i)) { DayKeepsInvariant(setup, f, s, i); }
    RepeatedKeeps(step, kept, Start(setup), k);
  }

  /** Marks can be added up from the front. */
  lemma {:induction false} MarkedFront(holdings: seq<Holding>, prices: map<Symbol, real>)
    requires holdings != []
    ensures var h := holdings[0];
            Marked(holdings, prices) == Value(h.qty, if h.symbol in prices then prices[h.symbol] else h.avgCost)
                                        + Marked(holdings[1..], prices)
  {
    var n := |holdings| - 1;
    if n == 0 {
    } else {
      MarkedFront(holdings[..n], prices);
      assert holdings[..n][1..] == holdings[1..][..n - 1];
    }
  }

  /** The first forced fill closes the first holding: its mark becomes cash, less a
      commission. */
  lemma {:induction false} FirstForcedFill(setup: Setup, b: Book, s: Sim)
    requires Sound(b, s.quotes) && SameCloses(s) && b.holdings != []
    ensures var h, fills := b.holdings[0], ForceFills(b.holdings, s.quotes, setup.commission);
            && fills != [] && fills[0].Fill? && fills[1..] == ForceFills(b.holdings[1..], s.quotes, setup.commission)
            && var after := FillBook(b, fills[0]);
               && after.holdings == b.holdings[1..] && |after.trades| == |b.trades| + 1
               && after.cash + Marked(after.holdings, s.latest)
                  == b.cash + Marked(b.holdings, s.latest) - setup.commission
               && Sound(after, s.quotes)
  {
    var h := b.holdings[0];
    assert h in b.holdings;
    assert Find(b.holdings, h.symbol) == 0;
    assert Without(b.holdings, 0) == b.holdings[1..];
    MarkedFront(b.holdings, s.latest);
  }

  function Fees(n: nat, commission: real): real { if n == 0 then 0.0 else Fees(n - 1, commission) + commission }

  lemma {:induction false} OneMoreFee(b: Book, after: Book, c: Book, prices: map<Symbol, real>, commission: real)
    requires |b.holdings| == |after.holdings| + 1
    requires after.cash + Marked(after.holdings, prices) == b.cash + Marked(b.holdings, prices) - commission
    requires c.cash == after.cash + Marked(after.holdings, prices) - Fees(|after.holdings|, commission)
    ensures c.cash == b.cash + Marked(b.holdings, prices) - Fees(|b.holdings|, commission)
  {
  }

  /** Closing every holding at its last close turns its mark into cash, less a commission. */
  lemma {:induction false} ForceCloseAll(setup: Setup, b: Book, s: Sim, fills: seq<Event>)
    requires Sound(b, s.quotes) && SameCloses(s)
    requires fills == ForceFills(b.holdings, s.quotes, setup.commission) && forall e :: e in fills ==> e.Fill?
    ensures var c := ApplyFills(b, fills);
            && c.holdings == [] && |c.trades| == |b.trades| + |b.holdings|
            && c.cash == b.cash + Marked(b.holdings, s.latest) - Fees(|b.holdings|, setup.commission)
    decreases |b.holdings|
  {
    if b.holdings == [] {
      assert Marked(b.holdings, s.latest) == 0.0;
    } else {
      FirstForcedFill(setup, b, s);
      var after := FillBook(b, fills[0]);
      ForceCloseAll(setup, after, s, fills[1..]);
      OneMoreFee(b, after, ApplyFills(after, fills[1..]), s.latest, setup.commission);
    }
  }

  lemma {:induction false} ClosingAccounts(setup: Setup, s: Sim)
    requires Invariant(setup, s)
    ensures var c := Closing(setup, s);
            && c.holdings == [] && |c.trades| == |s.book.trades| + |s.book.holdings|
            && c.cash == setup.initial + TotalPnl(c.trades)
            && s.equity == setup.initial + TotalPnl(c.trades) + Fees(|s.book.holdings|, setup.commission)
  {
    var fills := ForceFills(s.book.holdings, s.quotes, setup.commission);
    ForceFillsAreFills(s.book.holdings, s.quotes, setup.commission);
    ForceCloseAll(setup, s.book, s, fills);
    ApplyFillsKeepsBalance(s.book, fills, setup.initial, setup.commission);
    assert Invested([], setup.commission) == 0.0;
  }

  /** After the forced close nothing is open, cash is initial capital plus all P&L, and
      the reported final equity, marked before the close, exceeds that by exactly one
      commission per force-closed position. */
  lemma {:induction false} FinalAccounts(setup: Setup, f: Feed)
    requires Loaded(f)
    ensures var s := After(setup, f, |f.dates|);
            var c := Closing(setup, s);
            && c.holdings == [] && |c.trades| == |s.book.trades| + |s.book.holdings|
            && c.cash == setup.initial + TotalPnl(c.trades)
            && s.equity == setup.initial + TotalPnl(c.trades) + Fees(|s.book.holdings|, setup.commission)
  {
    RunInvariant(setup, f, |f.dates|);
    ClosingAccounts(setup, After(setup, f, |f.dates|));
  }

  // ------------------------------------------------------------------ look-ahead

  /** Every symbol has a row on every date, in step with the dates. */
  ghost predicate Full(f: Feed) {
    && Increasing(f.dates)
    && forall h :: h in f.bars ==> DatesOf(h.rows) == f.dates
  }

  /** Histories that agree, symbol for symbol, on their first `k` rows. */
  predicate SamePrefix(a: seq<History>, b: seq<History>, k: nat) {
    |a| == |b| && forall i :: 0 <= i < |a| ==> SameStart(a[i], b[i], k)
  }

  predicate SameStart(p: History, q: History, k: nat) {
    p.symbol == q.symbol && k <= |p.rows| && k <= |q.rows| && p.rows[..k] == q.rows[..k]
  }

  /** Two feeds that agree up to the first `k` dates. */
  ghost predicate AgreeUpTo(f: Feed, g: Feed, k: nat) {
    k <= |f.dates| && k <= |g.dates| && f.dates[..k] == g.dates[..k] && SamePrefix(f.bars, g.bars, k)
  }

  lemma {:induction false} RowAtFull(rows: seq<Row>, i: nat)
    requires Increasing(DatesOf(rows)) && i < |rows|
    ensures RowAt(rows, rows[i].date) == Some(rows[i])
  {
    if i == 0 {
    } else {
      assert DatesOf(rows)[0] < DatesOf(rows)[i];
      assert DatesOf(rows[1..]) == DatesOf(rows)[1..];
      RowAtFull(rows[1..], i - 1);
    }
  }

  lemma {:induction false} SameRow(p: History, q: History, k: nat, i: nat, date: int)
    requires SameStart(p, q, k) && i < k
    requires Increasing(DatesOf(p.rows)) && Increasing(DatesOf(q.rows))
    requires DatesOf(p.rows)[i] == date
    ensures RowAt(p.rows, date) == RowAt(q.rows, date)
  {
    assert p.rows[i] == p.rows[..k][i] == q.rows[..k][i] == q.rows[i];
    RowAtFull(p.rows, i);
    RowAtFull(q.rows, i);
  }

  /** Every history has a row on each of the dates, in order. */
  ghost predicate InStep(a: seq<History>, dates: seq<int>) {
    forall n :: 0 <= n < |a| ==> DatesOf(a[n].rows) == dates
  }

  lemma {:induction false} PrefixInit(a: seq<History>, b: seq<History>, k: nat, dates: seq<int>, dates': seq<int>)
    requires SamePrefix(a, b, k) && InStep(a, dates) && InStep(b, dates') && a != []
    ensures var n := |a| - 1;
            && SamePrefix(a[..n], b[..n], k) && InStep(a[..n], dates) && InStep(b[..n], dates')
            && SameStart(a[n], b[n], k)
  {
  }

  /** On a date both feeds have seen, they publish the same events. */
  lemma {:induction false} SameEvents(
      a: seq<History>, b: seq<History>, dates: seq<int>, dates': seq<int>, k: nat, i: nat)
    requires SamePrefix(a, b, k) && InStep(a, dates) && InStep(b, dates')
    requires Increasing(dates) && Increasing(dates') && i < k && i < |dates|
    ensures EventsAt(a, dates[i]) == EventsAt(b, dates[i])
    decreases |a|
  {
    if a == [] {
    } else {
      var n := |a| - 1;
      PrefixInit(a, b, k, dates, dates');
      SameEvents(a[..n], b[..n], dates, dates', k, i);
      SameRow(a[n], b[n], k, i, dates[i]);
    }
  }

  /** Windows taken while both feeds agree are the same. */
  lemma {:induction false} SameWindow(a: seq<History>, b: seq<History>, k: nat, index: nat, symbol: Symbol)
    requires index <= k && SamePrefix(a, b, k)
    ensures Window(a, index, symbol, WINDOW) == Window(b, index, symbol, WINDOW)
  {
    if a == [] {
    } else {
      assert SameStart(a[0], b[0], k);
      assert a[0].rows[..index] == a[0].rows[..k][..index] == b[0].rows[..k][..index] == b[0].rows[..index];
      SameWindow(a[1..], b[1..], k, index, symbol);
    }
  }

  /** Views with the same windows decide alike. */
  lemma {:induction false} SameHandlersSameDrain(g: Cause, h: Cause, b: Book, q: seq<Event>)
    requires Rising(g) && Rising(h)
    requires forall b: Book, e: Event :: g(b, e) == h(b, e)
    ensures Drain(g, b, q) == Drain(h, b, q)
    decreases Load(q)
  {
    if q == [] {
    } else {
      StepLightens(g, b, q);
      SameHandlersSameDrain(g, h, NextBook(b, q[0]), NextQueue(g, b, q));
    }
  }

  lemma {:induction false} SameSpawn(setup: Setup, v: View, w: View, b: Book, e: Event)
    requires v.(bars := w.bars) == w
    requires forall s: Symbol :: Window(v.bars, v.index, s, WINDOW) == Window(w.bars, w.index, s, WINDOW)
    ensures Spawn(setup, v, b, e) == Spawn(setup, w, b, e)
  {
  }

  lemma {:induction false} SameBars(
      setup: Setup, a: seq<History>, b: seq<History>, k: nat, index: nat, s: Sim, events: seq<Event>)
    requires index <= k && SamePrefix(a, b, k)
    requires events != [] && forall e :: e in events ==> e.Market?
    ensures Bars(setup, a, index, s, events) == Bars(setup, b, index, s, events)
  {
    var quotes := s.quotes + QuotesFrom(events);
    var v, w := View(a, index, quotes, s.equity), View(b, index, quotes, s.equity);
    forall x: Symbol
      ensures Window(a, index, x, WINDOW) == Window(b, index, x, WINDOW)
    {
      SameWindow(a, b, k, index, x);
    }
    forall c: Book, e: Event
      ensures Handlers(setup, v)(c, e) == Handlers(setup, w)(c, e)
    {
      SameSpawn(setup, v, w, c, e);
    }
    SameHandlersSameDrain(Handlers(setup, v), Handlers(setup, w), s.book, events);
  }

  lemma {:induction false} SameDayEvents(f: Feed, g: Feed, k: nat, i: nat)
    requires Full(f) && Full(g) && AgreeUpTo(f, g, k) && i < k
    ensures f.dates[i] == g.dates[i]
    ensures EventsAt(f.bars, f.dates[i]) == EventsAt(g.bars, f.dates[i])
  {
    assert f.dates[i] == f.dates[..k][i] == g.dates[..k][i] == g.dates[i];
    assert InStep(f.bars, f.dates) && InStep(g.bars, g.dates);
    SameEvents(f.bars, g.bars, f.dates, g.dates, k, i);
  }

  lemma {:induction false} SameDay(setup: Setup, f: Feed, g: Feed, k: nat, i: nat, s: Sim)
    requires SamePrefix(f.bars, g.bars, k) && i < k && i < |f.dates| && i < |g.dates|
    requires f.dates[i] == g.dates[i]
    requires EventsAt(f.bars, f.dates[i]) == EventsAt(g.bars, f.dates[i])
    ensures Day(setup, f, s, i) == Day(setup, g, s, i)
  {
    var events := EventsAt(f.bars, f.dates[i]);
    if events != [] { SameBars(setup, f.bars, g.bars, k, i + 1, s, events); }
  }

  lemma {:induction false} SameNextDay(setup: Setup, f: Feed, g: Feed, k: nat, i: nat, s: Sim)
    requires Full(f) && Full(g) && AgreeUpTo(f, g, k) && i < k
    ensures Day(setup, f, s, i) == Day(setup, g, s, i)
  {
    SameDayEvents(f, g, k, i);
    SameDay(setup, f, g, k, i, s);
  }

  lemma {:induction false} RepeatedAgree(p: DayStep, q: DayStep, s: Sim, k: nat)
    requires forall t: Sim, i: nat :: i < k ==> p(t, i) == q(t, i)
    ensures Repeated(p, s, k) == Repeated(q, s, k)
    decreases k
  {
    if k == 0 {
    } else {
      RepeatedAgree(p, q, s, k - 1);
    }
  }

  /** No look-ahead: two runs whose bars agree up to a date have the same book, trades
      and equity curve up to that date, whatever comes later. */
  lemma {:induction false} NoLookAhead(setup: Setup, f: Feed, g: Feed, k: nat, i: nat)
    requires Full(f) && Full(g) && AgreeUpTo(f, g, k) && i <= k
    ensures After(setup, f, i) == After(setup, g, i)
  {
    var p, q := Days(setup, f), Days(setup, g);
    forall s: Sim, n: nat | n < i ensures p(s, n) == q(s, n) { SameNextDay(setup, f, g, k, n, s); }
    RepeatedAgree(p, q, Start(setup), i);
  }
}
