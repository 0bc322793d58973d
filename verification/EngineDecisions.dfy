/** What the engine decides on one bar: who is sold, who is bought, how much and at what price. */
module EngineDecisions {
  import opened Money
  import opened Options
  import opened Rounding
  import opened Events
  import opened MarketData
  import opened Ledger
  import opened EventLoop
  import opened Engine
  import opened EngineTheorems
  import opened Symbols

  // ------------------------------------------------------------------ sizes and prices

  /** The size is the largest whole number of shares that the percentage of the equity pays
      for, with prices under a cent counted as one cent. */
  lemma {:induction false} SizedIsLargest(equity: real, sizePct: real, price: real, n: int)
    requires equity >= 0.0 && sizePct >= 0.0
    ensures n <= Sized(equity, sizePct, price)
       <==> 100.0 * n as real * (if price >= 0.01 then price else 0.01) <= sizePct * equity
  {
    var unit := if price >= 0.01 then price else 0.01;
    var part := equity * (sizePct / 100.0);
    ProductNonNegative(equity, sizePct / 100.0);
    QuotientIsLargest(part, unit, n);
    assert 100.0 * part == sizePct * equity;
    HundredTimes(n as real, unit);
  }

  lemma {:induction false} HundredTimes(n: real, unit: real)
    ensures 100.0 * n * unit == 100.0 * Product(n, unit)
  {
  }

  lemma {:induction false} QuotientIsLargest(x: real, y: real, n: int)
    requires x >= 0.0 && y > 0.0
    ensures n <= Truncate(x / y) <==> Product(n as real, y) <= x
  {
    var q := x / y;
    assert Product(q, y) == x;
    if q < 0.0 { ProductStrict(q, 0.0, y); }
    if n as real <= q { ProductMonotone(n as real, q, y); } else { ProductStrict(q, n as real, y); }
  }

  /** A fill lies within half a rounding step of the close plus its slippage, on sales too. */
  lemma {:induction false} FillNearSlippedClose(setup: Setup, v: View, b: Book, f: Event)
    requires EngineFill(setup, v, b, f)
    ensures var slipped := v.quotes[f.symbol].close * (1.0 + setup.slippagePct / 100.0);
            slipped - 0.00005 <= f.fillPrice <= slipped + 0.00005
  {
    var close := v.quotes[f.symbol].close;
    assert close * (1.0 + setup.slippagePct / 100.0) == close + Slippage(close, setup.slippagePct);
  }

  /** An order for a quoted symbol is filled once, in full, at the rounded price: for a market
      order the close moved against its direction by the slippage, for a limit order its limit,
      or the close where that is zero. Without a quote nothing is filled. */
  lemma {:induction false} OrderFills(setup: Setup, e: Event, quote: Option<Quote>)
    requires e.Order?
    ensures var fills := ExecuteOrder(setup, e, quote);
            && (fills == [] <==> quote.None?) && |fills| <= 1
            && (quote.Some? ==>
                  var f, close := fills[0], quote.value.close;
                  var slippage := close * (setup.slippagePct / 100.0);
                  var price :=
                    if e.orderType == MKT then if e.direction == LONG then close + slippage else close - slippage
                    else if e.orderType.price == 0.0 then close else e.orderType.price;
                  && f.Fill? && f.symbol == e.symbol && f.quantity == e.quantity && f.fillPrice == Round4(price)
                  && f.timestamp == e.timestamp && f.commission == setup.commission)
  {
    if quote.Some? {
      assert Slippage(quote.value.close, setup.slippagePct) == quote.value.close * (setup.slippagePct / 100.0);
    }
  }

  /** A signal to be long of a held symbol, or flat of one that is not held, orders nothing. */
  lemma {:induction false} SignalNeedsChange(b: Book, equity: real, sizePct: real, e: Event, price: real)
    requires e.Signal?
    requires if Owns(b, e.symbol) then e.kind != GoFlat else e.kind != GoLong
    ensures HandleSignal(b, equity, sizePct, e, price) == []
  {
    OwnsIsHeld(b, e.symbol);
  }

  // ------------------------------------------------------------------ one market event

  /** The rows shown of a symbol: up to 200, ending at the row whose position is the bar
      index; none for an unknown symbol. */
  function RowsShown(v: View, symbol: Symbol): Option<seq<Row>> {
    match RowsOf(v.bars, symbol)
    case None => None
    case Some(rows) =>
      var end := if v.index < |rows| then v.index else |rows|;
      Some(rows[if end > 200 then end - 200 else 0..end])
  }

  lemma {:induction false} ShownIsWindow(v: View, symbol: Symbol)
    ensures RowsShown(v, symbol) == Window(v.bars, v.index, symbol, WINDOW)
  {
  }

  /** At least two rows are shown and the exit conditions, of which there are some, hold. */
  predicate ExitHolds(s: Strategy, shown: Option<seq<Row>>) {
    shown.Some? && |shown.value| >= 2 && s.exits.Some? && s.exits.value(shown.value)
  }

  predicate EntryHolds(s: Strategy, shown: Option<seq<Row>>) {
    shown.Some? && |shown.value| >= 2 && s.entry(shown.value)
  }

  /** Some holding is of the symbol. */
  ghost predicate Owns(b: Book, symbol: Symbol) { exists h :: h in b.holdings && h.symbol == symbol }

  lemma {:induction false} OwnsIsHeld(b: Book, symbol: Symbol)
    ensures Owns(b, symbol) <==> Held(b.holdings, symbol)
  {
    var i := Find(b.holdings, symbol);
    if i < |b.holdings| { assert b.holdings[i] in b.holdings; }
  }

  /** The symbol is one the bar trades: a holding to be sold, or an entry whose size is a
      share at least and covered by the cash from before the bar. */
  ghost predicate Trades(setup: Setup, v: View, b: Book, symbol: Symbol) {
    symbol in v.quotes &&
    var shown := RowsShown(v, symbol);
    if Owns(b, symbol) then ExitHolds(setup.strategy, shown)
    else
      var close := v.quotes[symbol].close;
      var n := Sized(v.equity, setup.sizePct, close);
      EntryHolds(setup.strategy, shown) && n >= 1 && n as real * close <= b.cash
  }

  /** Signal, order and fill of one market event follow each other exactly when it trades. */
  lemma {:induction false} ChainIff(setup: Setup, v: View, b: Book, m: Event)
    requires m.Market? && m.symbol in v.quotes
    ensures var g := Handlers(setup, v);
            var s := g(b, m);
            var o := if s == [] then [] else g(b, s[0]);
            var f := if o == [] then [] else g(b, o[0]);
            f != [] <==> Trades(setup, v, b, m.symbol)
  {
    ShownIsWindow(v, m.symbol);
    OwnsIsHeld(b, m.symbol);
    var quantity, close := Sized(v.equity, setup.sizePct, v.quotes[m.symbol].close), v.quotes[m.symbol].close;
    assert Value(quantity, close) == quantity as real * close;
  }

  // ------------------------------------------------------------------ a whole bar

  lemma {:induction false} SpawnAllMember(g: Cause, b: Book, q: seq<Event>, k: nat)
    requires k < |q| && Rising(g) && g(b, q[k]) != []
    ensures g(b, q[k])[0] in SpawnAll(g, b, q)
  {
    if k == 0 {
      assert g(b, q[0])[0] in g(b, q[0]);
    } else {
      assert q[1..][k - 1] == q[k];
      SpawnAllMember(g, b, q[1..], k - 1);
    }
  }

  /** What a member of a batch causes comes from the one event of its symbol. */
  lemma {:induction false} OnlyCause(g: Cause, b: Book, q: seq<Event>, k: nat, x: Event)
    requires Rising(g) && DistinctSymbols(q) && k < |q| && x in SpawnAll(g, b, q) && x.symbol == q[k].symbol
    ensures g(b, q[k]) == [x]
  {
    SpawnAllHasCause(g, b, q, x);
  }

  /** The bar has a fill of the symbol exactly when its market event trades. */
  lemma {:induction false} FillIff(setup: Setup, v: View, b: Book, markets: seq<Event>, k: nat)
    requires AllRank(markets, 0) && DistinctSymbols(markets) && k < |markets| && markets[k].symbol in v.quotes
    ensures (exists f :: f in Fills(Handlers(setup, v), b, markets) && f.symbol == markets[k].symbol)
       <==> Trades(setup, v, b, markets[k].symbol)
  {
    var g, m := Handlers(setup, v), markets[k];
    ChainIff(setup, v, b, m);
    if f :| f in Fills(g, b, markets) && f.symbol == m.symbol { FillHasChain(g, b, markets, k, f); }
    if Trades(setup, v, b, m.symbol) { ChainHasFill(g, b, markets, k); }
  }

  lemma {:induction false} FillHasChain(g: Cause, b: Book, markets: seq<Event>, k: nat, f: Event)
    requires Rising(g) && DistinctSymbols(markets) && k < |markets|
    requires f in Fills(g, b, markets) && f.symbol == markets[k].symbol
    ensures var s := g(b, markets[k]);
            s != [] && g(b, s[0]) != [] && g(b, g(b, s[0])[0]) == [f]
  {
    var signals, orders := Signals(g, b, markets), Orders(g, b, markets);
    SpawnAllDistinct(g, b, markets);
    SpawnAllHasCause(g, b, orders, f);
    var i :| 0 <= i < |orders| && g(b, orders[i]) == [f] && orders[i].symbol == f.symbol;
    SpawnAllHasCause(g, b, signals, orders[i]);
    var j :| 0 <= j < |signals| && g(b, signals[j]) == [orders[i]] && signals[j].symbol == orders[i].symbol;
    OnlyCause(g, b, markets, k, signals[j]);
  }

  lemma {:induction false} ChainHasFill(g: Cause, b: Book, markets: seq<Event>, k: nat)
    requires Rising(g) && k < |markets| && g(b, markets[k]) != [] && g(b, g(b, markets[k])[0]) != []
    requires g(b, g(b, g(b, markets[k])[0])[0]) != []
    ensures exists f :: f in Fills(g, b, markets) && f.symbol == markets[k].symbol
  {
    var s := g(b, markets[k])[0];
    var o := g(b, s)[0];
    var f := g(b, o)[0];
    assert RisesOn(g, b, markets[k]) && RisesOn(g, b, s) && RisesOn(g, b, o);
    SpawnAllMember(g, b, markets, k);
    var signals := Signals(g, b, markets);
    var i :| 0 <= i < |signals| && signals[i] == s;
    SpawnAllMember(g, b, signals, i);
    var orders := Orders(g, b, markets);
    var j :| 0 <= j < |orders| && orders[j] == o;
    SpawnAllMember(g, b, orders, j);
  }

  lemma {:induction false} NotAgain(fills: seq<Event>)
    requires fills != [] && DistinctSymbols(fills)
    ensures DistinctSymbols(fills[1..]) && forall x :: x in fills[1..] ==> x.symbol != fills[0].symbol
  {
    var rest := fills[1..];
    forall x | x in rest ensures x.symbol != fills[0].symbol {
      var i :| 0 <= i < |rest| && rest[i] == x;
      assert fills[i + 1] == x;
    }
  }

  /** Fills of distinct symbols turn exactly the holdings of their symbols over. */
  lemma {:induction false} FillsTurnOver(b: Book, fills: seq<Event>, symbol: Symbol)
    requires OnePerSymbol(b.holdings) && DistinctSymbols(fills) && forall e :: e in fills ==> e.Fill?
    ensures Held(ApplyFills(b, fills).holdings, symbol)
       <==> (Held(b.holdings, symbol) <==> !exists f :: f in fills && f.symbol == symbol)
    decreases |fills|
  {
    if fills == [] {
    } else {
      var f, rest := fills[0], fills[1..];
      assert f in fills && fills == [f] + rest;
      FillTouchesOneSymbol(b, f, symbol);
      FillsTurnOver(FillBook(b, f), rest, symbol);
      NotAgain(fills);
    }
  }

  lemma {:induction false} DrainTurnsOver(setup: Setup, v: View, b: Book, markets: seq<Event>, symbol: Symbol)
    requires AllRank(markets, 0) && DistinctSymbols(markets) && OnePerSymbol(b.holdings)
    ensures var g := Handlers(setup, v);
            var filled := exists f :: f in Fills(g, b, markets) && f.symbol == symbol;
            Owns(Drain(g, b, markets).book, symbol) <==> (Owns(b, symbol) <==> !filled)
  {
    var g := Handlers(setup, v);
    PhaseOrdered(g, b, markets);
    PhaseRanks(g, b, markets);
    FillsTurnOver(b, Fills(g, b, markets), symbol);
    OwnsIsHeld(b, symbol);
    OwnsIsHeld(Drain(g, b, markets).book, symbol);
  }

  /** One bar, any number of symbols: a held symbol is sold exactly when two rows are shown of
      it, exit conditions exist and hold of what is shown; a symbol not held is bought exactly
      when its entry conditions hold of what is shown and its size is at least one share that
      the cash from before the bar covers at the close. */
  lemma {:induction false} BarDecides(setup: Setup, v: View, b: Book, markets: seq<Event>, k: nat)
    requires AllRank(markets, 0) && DistinctSymbols(markets) && OnePerSymbol(b.holdings)
    requires k < |markets| && markets[k].symbol in v.quotes
    ensures var symbol, after := markets[k].symbol, Drain(Handlers(setup, v), b, markets).book;
            var shown, close := RowsShown(v, symbol), v.quotes[symbol].close;
            var n := Sized(v.equity, setup.sizePct, close);
            && (Owns(b, symbol) ==> (!Owns(after, symbol) <==> ExitHolds(setup.strategy, shown)))
            && (!Owns(b, symbol) ==>
                  (Owns(after, symbol) <==>
                     EntryHolds(setup.strategy, shown) && n >= 1 && n as real * close <= b.cash))
  {
    BarTurnsOver(setup, v, b, markets, k);
  }

  lemma {:induction false} BarTurnsOver(setup: Setup, v: View, b: Book, markets: seq<Event>, k: nat)
    requires AllRank(markets, 0) && DistinctSymbols(markets) && OnePerSymbol(b.holdings)
    requires k < |markets| && markets[k].symbol in v.quotes
    ensures var symbol := markets[k].symbol;
            Owns(Drain(Handlers(setup, v), b, markets).book, symbol)
            <==> (Owns(b, symbol) <==> !Trades(setup, v, b, symbol))
  {
    DrainTurnsOver(setup, v, b, markets, markets[k].symbol);
    FillIff(setup, v, b, markets, k);
  }

  /** A symbol that has no market event on the bar is neither bought nor sold. */
  lemma {:induction false} OthersStay(setup: Setup, v: View, b: Book, markets: seq<Event>, symbol: Symbol)
    requires AllRank(markets, 0) && DistinctSymbols(markets) && OnePerSymbol(b.holdings)
    requires forall m :: m in markets ==> m.symbol != symbol
    ensures Owns(Drain(Handlers(setup, v), b, markets).book, symbol) <==> Owns(b, symbol)
  {
    var g := Handlers(setup, v);
    DrainTurnsOver(setup, v, b, markets, symbol);
    if f :| f in Fills(g, b, markets) && f.symbol == symbol {
      SpawnAllHasCause(g, b, Orders(g, b, markets), f);
      var o :| o in Orders(g, b, markets) && o.symbol == symbol;
      SpawnAllHasCause(g, b, Signals(g, b, markets), o);
      var s :| s in Signals(g, b, markets) && s.symbol == symbol;
      SpawnAllHasCause(g, b, markets, s);
    }
  }
}
