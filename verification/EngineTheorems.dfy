/** What holds of every run of the event-driven engine. */
module EngineTheorems {
  import opened Options
  import opened Money
  import opened Rounding
  import opened Events
  import opened MarketData
  import opened Ledger
  import opened EventLoop
  import opened Engine
  import opened Symbols

  // ------------------------------------------------------------------ what a fill is

  predicate Sane(setup: Setup, v: View, b: Book) {
    && setup.slippagePct >= 0.0 && setup.commission >= 0.0
    && (forall s :: s in v.quotes ==> v.quotes[s].close >= 0.0)
    && OnePerSymbol(b.holdings)
    && (forall h :: h in b.holdings ==> h.qty >= 1)
  }

  /** The price a simulated market order gets. */
  function Slipped(setup: Setup, close: real): real { Round4(close + Slippage(close, setup.slippagePct)) }

  /** A fill as the engine makes it: it sells the whole holding of its symbol, or buys
      at least one share whose close-price cost the pre-bar cash covers. */
  ghost predicate EngineFill(setup: Setup, v: View, b: Book, f: Event) {
    && f.Fill? && f.symbol in v.quotes
    && f.commission == setup.commission
    && f.fillPrice == Slipped(setup, v.quotes[f.symbol].close)
    && (!Held(b.holdings, f.symbol) ==>
          f.quantity >= 1 && f.quantity == Sized(v.equity, setup.sizePct, v.quotes[f.symbol].close)
          && Value(f.quantity, v.quotes[f.symbol].close) <= b.cash)
    && (Held(b.holdings, f.symbol) ==> f.quantity == b.holdings[Find(b.holdings, f.symbol)].qty)
  }

  /** An order as a signal makes it. */
  ghost predicate EngineOrder(setup: Setup, v: View, b: Book, o: Event) {
    && o.Order? && o.orderType == MKT && o.direction == LONG
    && var price := if o.symbol in v.quotes then v.quotes[o.symbol].close else 0.0;
       && (!Held(b.holdings, o.symbol) ==>
             o.quantity >= 1 && o.quantity == Sized(v.equity, setup.sizePct, price) && Value(o.quantity, price) <= b.cash)
       && (Held(b.holdings, o.symbol) ==> o.quantity == b.holdings[Find(b.holdings, o.symbol)].qty)
  }

  lemma {:induction false} SignalMakesOrder(setup: Setup, v: View, b: Book, e: Event, o: Event)
    requires e.Signal? && Spawn(setup, v, b, e) == [o]
    ensures EngineOrder(setup, v, b, o)
  {
  }

  lemma {:induction false} OrderMakesFill(setup: Setup, v: View, b: Book, o: Event, f: Event)
    requires EngineOrder(setup, v, b, o) && Spawn(setup, v, b, o) == [f]
    ensures EngineFill(setup, v, b, f)
  {
  }

  /** Every fill of a bar is an engine fill against the pre-bar book. */
  lemma {:induction false} FillsAreEngineFills(setup: Setup, v: View, b: Book, markets: seq<Event>)
    requires AllRank(markets, 0)
    ensures forall f :: f in Fills(Handlers(setup, v), b, markets) ==> EngineFill(setup, v, b, f)
  {
    var g := Handlers(setup, v);
    var s, o := Signals(g, b, markets), Orders(g, b, markets);
    PhaseRanks(g, b, markets);
    forall f | f in Fills(g, b, markets)
      ensures EngineFill(setup, v, b, f)
    {
      SpawnAllHasCause(g, b, o, f);
      var i :| 0 <= i < |o| && g(b, o[i]) == [f] && o[i].symbol == f.symbol;
      SpawnAllHasCause(g, b, s, o[i]);
      var j :| 0 <= j < |s| && g(b, s[j]) == [o[i]] && s[j].symbol == o[i].symbol;
      assert Rank(s[j]) == 1;
      SignalMakesOrder(setup, v, b, s[j], o[i]);
      OrderMakesFill(setup, v, b, o[i], f);
    }
  }

  // ------------------------------------------------------------------ overdraft

  /** What one fill does to the cash of a book. */
  function CashEffect(b: Book, f: Event): real
    requires f.Fill?
  {
    if Held(b.holdings, f.symbol) then Value(b.holdings[Find(b.holdings, f.symbol)].qty, f.fillPrice) - f.commission
    else -(Value(f.quantity, f.fillPrice) + f.commission)
  }

  function CashEffects(b: Book, fills: seq<Event>): real
    requires forall e :: e in fills ==> e.Fill?
  {
    if fills == [] then 0.0 else CashEffect(b, fills[0]) + CashEffects(b, fills[1..])
  }

  /** Fills of distinct symbols do not see each other: cash moves by the sum of their
      effects on the book before the first of them. */
  lemma {:induction false} DistinctFillsAdd(b: Book, fills: seq<Event>)
    requires OnePerSymbol(b.holdings) && DistinctSymbols(fills)
    requires forall e :: e in fills ==> e.Fill?
    ensures ApplyFills(b, fills).cash == b.cash + CashEffects(b, fills)
    decreases |fills|
  {
    if fills == [] {
    } else {
      var f, after := fills[0], FillBook(b, fills[0]);
      assert f in fills;
      FillTouchesOneSymbol(b, f, f.symbol);
      DistinctFillsAdd(after, fills[1..]);
      forall k | 0 <= k < |fills[1..]|
        ensures fills[1..][k].symbol != f.symbol
      {
        assert fills[1..][k] == fills[k + 1];
      }
      EffectsUnseen(b, f, fills[1..]);
    }
  }

  lemma {:induction false} EffectsUnseen(b: Book, f: Event, fills: seq<Event>)
    requires f.Fill? && OnePerSymbol(b.holdings)
    requires forall e :: e in fills ==> e.Fill?
    requires forall k :: 0 <= k < |fills| ==> fills[k].symbol != f.symbol
    ensures CashEffects(FillBook(b, f), fills) == CashEffects(b, fills)
  {
    if fills == [] {
    } else {
      assert fills[0] in fills;
      SameHolding(b, f, fills[0].symbol);
      EffectsUnseen(b, f, fills[1..]);
    }
  }

  /** A fill leaves the holding of any other symbol as it is. */
  lemma {:induction false} SameHolding(b: Book, f: Event, symbol: Symbol)
    requires f.Fill? && OnePerSymbol(b.holdings) && symbol != f.symbol
    ensures var after := FillBook(b, f).holdings;
            && (Held(after, symbol) <==> Held(b.holdings, symbol))
            && (Held(after, symbol) ==> after[Find(after, symbol)] == b.holdings[Find(b.holdings, symbol)])
  {
    FillTouchesOneSymbol(b, f, symbol);
    var after := FillBook(b, f).holdings;
    var i, k := Find(b.holdings, f.symbol), Find(b.holdings, symbol);
    if k < |b.holdings| {
      var at := if i < k then k - 1 else k;
      assert after[at] == b.holdings[k];
      assert after[Find(after, symbol)].symbol == after[at].symbol;
    }
  }

  /** The most one fill may cost: a buy may spend the whole pre-bar cash plus slippage,
      half a rounding step per share and the commission; a sale only the commission. */
  function Allowance(setup: Setup, b: Book, f: Event): real
    requires f.Fill?
  {
    if Held(b.holdings, f.symbol) then setup.commission
    else b.cash + Slippage(b.cash, setup.slippagePct) + HALF_STEP_4 * f.quantity as real + setup.commission
  }

  /** Buying what the cash covers at the close costs at most the slipped cash more. */
  lemma {:induction false} SpendBound(q: real, close: real, rate: real, price: real, cash: real)
    requires q >= 0.0 && rate >= 0.0 && q * close <= cash && price <= close + close * rate + HALF_STEP_4
    ensures q * price <= cash + cash * rate + HALF_STEP_4 * q
  {
    MulLeft(q, price, close + close * rate + HALF_STEP_4);
    assert q * (close + close * rate + HALF_STEP_4) == q * close + (q * close) * rate + HALF_STEP_4 * q;
    MulRight(q * close, cash, rate);
  }

  lemma {:induction false} SaleWithinAllowance(setup: Setup, v: View, b: Book, f: Event)
    requires Sane(setup, v, b) && EngineFill(setup, v, b, f) && Held(b.holdings, f.symbol)
    ensures CashEffect(b, f) >= -Allowance(setup, b, f)
  {
    var h := b.holdings[Find(b.holdings, f.symbol)];
    assert h in b.holdings;
    SlippedNonNegative(setup, v.quotes[f.symbol].close);
    ProductNonNegative(h.qty as real, f.fillPrice);
  }

  lemma {:induction false} EffectWithinAllowance(setup: Setup, v: View, b: Book, f: Event)
    requires Sane(setup, v, b) && EngineFill(setup, v, b, f)
    ensures CashEffect(b, f) >= -Allowance(setup, b, f)
  {
    if Held(b.holdings, f.symbol) {
      SaleWithinAllowance(setup, v, b, f);
    } else {
      var close := v.quotes[f.symbol].close;
      SpendBound(f.quantity as real, close, setup.slippagePct / 100.0, f.fillPrice, b.cash);
    }
  }

  lemma {:induction false} MulLeft(q: real, x: real, y: real)
    requires q >= 0.0 && x <= y
    ensures q * x <= q * y
  {
    ProductNonNegative(q, y - x);
  }

  lemma {:induction false} MulRight(x: real, y: real, r: real)
    requires r >= 0.0 && x <= y
    ensures x * r <= y * r
  {
    ProductNonNegative(y - x, r);
  }

  lemma {:induction false} SlippedNonNegative(setup: Setup, close: real)
    requires setup.slippagePct >= 0.0 && close >= 0.0
    ensures Slipped(setup, close) >= 0.0
  {
    ProductNonNegative(close, setup.slippagePct / 100.0);
    RoundIntMonotone(0.0, (close + Slippage(close, setup.slippagePct)) * 10000.0);
  }

  function Allowances(setup: Setup, b: Book, fills: seq<Event>): real
    requires forall e :: e in fills ==> e.Fill?
  {
    if fills == [] then 0.0 else Allowance(setup, b, fills[0]) + Allowances(setup, b, fills[1..])
  }

  lemma {:induction false} EffectsWithinAllowances(setup: Setup, v: View, b: Book, fills: seq<Event>)
    requires Sane(setup, v, b)
    requires forall f :: f in fills ==> f.Fill? && EngineFill(setup, v, b, f)
    ensures CashEffects(b, fills) >= -Allowances(setup, b, fills)
  {
    if fills == [] {
    } else {
      assert fills[0] in fills;
      EffectWithinAllowance(setup, v, b, fills[0]);
      EffectsWithinAllowances(setup, v, b, fills[1..]);
    }
  }

  /** The overdraft bound for any number of symbols: each buy of the bar may spend the
      same pre-bar cash once more. */
  lemma {:induction false} OverdraftBound(setup: Setup, v: View, b: Book, markets: seq<Event>)
    requires Sane(setup, v, b) && AllRank(markets, 0) && DistinctSymbols(markets)
    ensures var g := Handlers(setup, v);
            var f := Fills(g, b, markets);
            && (forall e :: e in f ==> e.Fill?)
            && |f| <= |markets|
            && Drain(g, b, markets).book.cash >= b.cash - Allowances(setup, b, f)
  {
    var g := Handlers(setup, v);
    PhaseOrdered(g, b, markets);
    PhaseRanks(g, b, markets);
    FillsAreEngineFills(setup, v, b, markets);
    DistinctFillsAdd(b, Fills(g, b, markets));
    EffectsWithinAllowances(setup, v, b, Fills(g, b, markets));
  }

  /** A single symbol overdraws by slippage, rounding and commission at most. */
  lemma {:induction false} OneSymbolOverdraft(setup: Setup, v: View, b: Book, market: Event)
    requires Sane(setup, v, b) && market.Market? && b.cash >= 0.0
    ensures var g := Handlers(setup, v);
            var f := Fills(g, b, [market]);
            && |f| <= 1
            && (f != [] ==> f[0].Fill?)
            && var shares := if f == [] then 0 else f[0].quantity;
               Drain(g, b, [market]).book.cash
                 >= -(Slippage(b.cash, setup.slippagePct) + HALF_STEP_4 * shares as real + setup.commission)
  {
    OverdraftBound(setup, v, b, [market]);
    FillsAreEngineFills(setup, v, b, [market]);
    var f := Fills(Handlers(setup, v), b, [market]);
    ProductNonNegative(b.cash, setup.slippagePct / 100.0);
    if f != [] {
      assert f == [f[0]] && f[0] in f;
      AllowanceOfOne(setup, v, b, f[0]);
    }
  }

  lemma {:induction false} AllowanceOfOne(setup: Setup, v: View, b: Book, f: Event)
    requires Sane(setup, v, b) && f.Fill? && EngineFill(setup, v, b, f) && b.cash >= 0.0
    ensures b.cash - Allowances(setup, b, [f])
         >= -(Slippage(b.cash, setup.slippagePct) + HALF_STEP_4 * f.quantity as real + setup.commission)
  {
    ProductNonNegative(b.cash, setup.slippagePct / 100.0);
    assert [f][1..] == [];
    assert Allowances(setup, b, [f]) == Allowance(setup, b, f) + Allowances(setup, b, [f][1..]);
    if Held(b.holdings, f.symbol) {
      assert b.holdings[Find(b.holdings, f.symbol)] in b.holdings;
    }
  }

  function DemoSetup(): Setup { Setup(Strategy(rows => true, None), 1000.0, 100.0, 0.05, 1.0) }

  function DemoRows(): seq<Row> { [Row(1, 100.0, 100.0, 100.0, 100.0), Row(2, 100.0, 100.0, 100.0, 100.0)] }

  function DemoView(): View {
    View([History(Ticker("A"), DemoRows()), History(Ticker("B"), DemoRows())], 2,
         map[Ticker("A") := Quote(2, 100.0), Ticker("B") := Quote(2, 100.0)], 1000.0)
  }

  function DemoBook(): Book { Book(1000.0, [], []) }

  function DemoMarkets(): seq<Event> { [Market(2, Ticker("A"), 100.0), Market(2, Ticker("B"), 100.0)] }

  lemma {:induction false} DemoRowsOf(s: Symbol)
    requires s in {Ticker("A"), Ticker("B")}
    ensures RowsOf(DemoView().bars, s) == Some(DemoRows())
  {
    var bars := DemoView().bars;
    assert bars[1..] == [History(Ticker("B"), DemoRows())];
  }

  lemma {:induction false} DemoChain(s: Symbol)
    requires s in {Ticker("A"), Ticker("B")}
    ensures BuysTen(Handlers(DemoSetup(), DemoView()), DemoBook(), s)
  {
    assert Sized(1000.0, 100.0, 100.0) == 10 by {
      assert 1000.0 * (100.0 / 100.0) / 100.0 == 10.0;
    }
    DemoRowsOf(s);
    ChainOf(DemoSetup(), DemoView(), DemoBook(), s, DemoRows());
  }

  /** Two symbols that signal on one bar spend the same cash twice, at the slippage the engine
      always runs with. */
  lemma {:induction false} TwoSymbolsOverdraw()
    ensures Sane(DemoSetup(), DemoView(), DemoBook())
    ensures AllRank(DemoMarkets(), 0) && DistinctSymbols(DemoMarkets())
    ensures DemoBook().cash == DemoView().equity == 1000.0
    ensures Drain(Handlers(DemoSetup(), DemoView()), DemoBook(), DemoMarkets()).book.cash == -1003.0
  {
    DemoChain(Ticker("A"));
    DemoChain(Ticker("B"));
    TwoBuysDrained(Handlers(DemoSetup(), DemoView()), DemoBook(), DemoMarkets());
    DemoIsSane();
  }

  lemma {:induction false} DemoIsSane()
    ensures Sane(DemoSetup(), DemoView(), DemoBook())
    ensures AllRank(DemoMarkets(), 0) && DistinctSymbols(DemoMarkets())
  {
    assert Ticker("A") != Ticker("B") by { assert "A"[0] != "B"[0]; }
  }

  predicate BuysTen(g: Cause, b: Book, symbol: Symbol) {
    && g(b, Market(2, symbol, 100.0)) == [Signal(2, symbol, GoLong)]
    && g(b, Signal(2, symbol, GoLong)) == [Order(2, symbol, MKT, 10, LONG)]
    && g(b, Order(2, symbol, MKT, 10, LONG)) == [Fill(2, symbol, 10, 100.05, 1.0)]
  }

  lemma {:induction false} TwoBuysDrained(g: Cause, b: Book, markets: seq<Event>)
    requires Rising(g) && BuysTen(g, b, Ticker("A")) && BuysTen(g, b, Ticker("B"))
    requires b == Book(1000.0, [], []) && markets == [Market(2, Ticker("A"), 100.0), Market(2, Ticker("B"), 100.0)]
    ensures Drain(g, b, markets).book.cash == -1003.0
  {
    var f := [Fill(2, Ticker("A"), 10, 100.05, 1.0), Fill(2, Ticker("B"), 10, 100.05, 1.0)];
    SpawnAllOfTwo(g, b, markets, [Signal(2, Ticker("A"), GoLong), Signal(2, Ticker("B"), GoLong)]);
    var orders := [Order(2, Ticker("A"), MKT, 10, LONG), Order(2, Ticker("B"), MKT, 10, LONG)];
    SpawnAllOfTwo(g, b, Signals(g, b, markets), orders);
    SpawnAllOfTwo(g, b, Orders(g, b, markets), f);
    PhaseOrdered(g, b, markets);
    TwoBuysApplied(b, f);
  }

  lemma {:induction false} TwoBuysApplied(b: Book, f: seq<Event>)
    requires b == Book(1000.0, [], [])
    requires f == [Fill(2, Ticker("A"), 10, 100.05, 1.0), Fill(2, Ticker("B"), 10, 100.05, 1.0)]
    ensures ApplyFills(b, f).cash == -1003.0
  {
    assert f[1..] == [f[1]] && f[1..][1..] == [];
    assert Ticker("A") != Ticker("B");
    assert FillBook(FillBook(b, f[0]), f[1]).cash == -1003.0;
    assert ApplyFills(b, f) == ApplyFills(FillBook(b, f[0]), f[1..]);
    assert ApplyFills(FillBook(b, f[0]), f[1..]) == ApplyFills(FillBook(FillBook(b, f[0]), f[1]), []);
  }

  lemma {:induction false} SpawnAllOfTwo(g: Cause, b: Book, q: seq<Event>, out: seq<Event>)
    requires |q| == |out| == 2 && g(b, q[0]) == [out[0]] && g(b, q[1]) == [out[1]]
    ensures SpawnAll(g, b, q) == out
  {
    assert q[1..][1..] == [];
    assert SpawnAll(g, b, q[1..]) == g(b, q[1]) + [];
  }

  /** A fresh buy of ten shares at 100, link by link. */
  lemma {:induction false} ChainOf(setup: Setup, v: View, b: Book, symbol: Symbol, rows: seq<Row>)
    requires RowsOf(v.bars, symbol) == Some(rows) && |rows| == 2 && v.index == 2
    requires setup.strategy.entry(rows) && setup.slippagePct == 0.05 && setup.commission == 1.0
    requires b == Book(1000.0, [], []) && symbol in v.quotes && v.quotes[symbol].close == 100.0
    requires Sized(v.equity, setup.sizePct, 100.0) == 10
    ensures Spawn(setup, v, b, Market(2, symbol, 100.0)) == [Signal(2, symbol, GoLong)]
    ensures Spawn(setup, v, b, Signal(2, symbol, GoLong)) == [Order(2, symbol, MKT, 10, LONG)]
    ensures Spawn(setup, v, b, Order(2, symbol, MKT, 10, LONG)) == [Fill(2, symbol, 10, 100.05, 1.0)]
  {
    assert rows[..2] == rows;
    assert Slippage(100.0, 0.05) == 0.05 && RoundInt(1000500.0) == 1000500;
  }

  /** Exit orders carry direction LONG, so slippage moves entry and exit alike: a round
      trip on equal closes loses the two commissions and nothing else, whatever the
      slippage rate. */
  lemma {:induction false} SlippageCancelsOnRoundTrip(setup: Setup, v: View, b: Book, w: View, c: Book, symbol: Symbol,
                                                      buy: Event, sell: Event)
    requires EngineFill(setup, v, b, buy) && EngineFill(setup, w, c, sell)
    requires buy.symbol == sell.symbol == symbol && v.quotes[symbol].close == w.quotes[symbol].close
    requires !Held(b.holdings, symbol)
    requires Held(c.holdings, symbol) && c.holdings[Find(c.holdings, symbol)].avgCost == buy.fillPrice
    ensures var trades := FillBook(c, sell).trades;
            Pnl(trades[|trades| - 1]) == -2.0 * setup.commission
  {
  }
}
