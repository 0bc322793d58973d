/** The event-driven engine of `backend/backtest_engine.py`. */
module Engine {
  import opened Options
  import opened Money
  import opened Rounding
  import opened Events
  import opened MarketData
  import opened Ledger
  import opened EventLoop
  import opened Symbols

  /** Entry and exit conditions as pure functions of the bars they are shown. */
  datatype Strategy = Strategy(entry: seq<Row> -> bool, exits: Option<seq<Row> -> bool>)

  datatype Setup = Setup(strategy: Strategy, initial: real, sizePct: real, slippagePct: real, commission: real)

  datatype Quote = Quote(timestamp: int, close: real)

  /** What stays fixed while one timestamp is drained. */
  datatype View = View(bars: seq<History>, index: nat, quotes: map<Symbol, Quote>, equity: real)

  const WINDOW: nat := 200

  /** `RuleStrategy.on_market_event`. */
  function OnMarket(s: Strategy, window: Option<seq<Row>>, held: bool, e: Event): seq<Event>
    requires e.Market?
  {
    if window.None? || |window.value| < 2 then []
    else if held then
      if s.exits.Some? && s.exits.value(window.value) then [Signal(e.timestamp, e.symbol, GoFlat)] else []
    else
      if s.entry(window.value) then [Signal(e.timestamp, e.symbol, GoLong)] else []
  }

  function Sized(equity: real, sizePct: real, price: real): int {
    var available := equity * (sizePct / 100.0);
    Truncate(available / if price >= 0.01 then price else 0.01)
  }

  /** `Portfolio.handle_signal`. */
  function HandleSignal(b: Book, equity: real, sizePct: real, e: Event, price: real): seq<Event>
    requires e.Signal?
  {
    if e.kind == GoLong && !Held(b.holdings, e.symbol) then
      var qty := Sized(equity, sizePct, price);
      if qty < 1 || Value(qty, price) > b.cash then []
      else [Order(e.timestamp, e.symbol, MKT, qty, LONG)]
    else if e.kind == GoFlat && Held(b.holdings, e.symbol) then
      [Order(e.timestamp, e.symbol, MKT, b.holdings[Find(b.holdings, e.symbol)].qty, LONG)]
    else []
  }

  function Slippage(close: real, slippagePct: real): real { close * (slippagePct / 100.0) }

  function FillPrice(slippagePct: real, e: Event, close: real): real
    requires e.Order?
  {
    if e.orderType == MKT then
      var slippage := Slippage(close, slippagePct);
      if e.direction == LONG then close + slippage else close - slippage
    else
      if e.orderType.price != 0.0 then e.orderType.price else close
  }

  /** `SimulatedExecution.execute_order`. */
  function ExecuteOrder(setup: Setup, e: Event, quote: Option<Quote>): seq<Event>
    requires e.Order?
  {
    if quote.None? then []
    else [Fill(e.timestamp, e.symbol, e.quantity, Round4(FillPrice(setup.slippagePct, e, quote.value.close)), setup.commission)]
  }

  function QuoteOf(v: View, symbol: Symbol): Option<Quote> {
    if symbol in v.quotes then Some(v.quotes[symbol]) else None
  }

  /** What handling one event puts on the queue. A fill puts nothing. */
  function Spawn(setup: Setup, v: View, b: Book, e: Event): (out: seq<Event>)
    ensures |out| <= 1
    ensures e.Fill? ==> out == []
    ensures out != [] ==> out[0].timestamp == e.timestamp && out[0].symbol == e.symbol && Rank(out[0]) == Rank(e) + 1
  {
    match e
    case Market(_, symbol, _) =>
      OnMarket(setup.strategy, Window(v.bars, v.index, symbol, WINDOW), Held(b.holdings, symbol), e)
    case Signal(_, symbol, _) =>
      var quote := QuoteOf(v, symbol);
      HandleSignal(b, v.equity, setup.sizePct, e, if quote.Some? then quote.value.close else 0.0)
    case Order(_, symbol, _, _, _) => ExecuteOrder(setup, e, QuoteOf(v, symbol))
    case Fill(_, _, _, _, _) => []
  }

  /** The handlers of the engine for one frozen view. */
  ghost function Handlers(setup: Setup, v: View): (g: Cause)
    ensures Rising(g)
  {
    var g := (b: Book, e: Event) => Spawn(setup, v, b, e);
    assert forall b, e :: RisesOn(g, b, e);
    g
  }

  datatype Sim = Sim(book: Book, equity: real, peak: real, curve: seq<Mark>,
                     latest: map<Symbol, real>, quotes: map<Symbol, Quote>)

  function Start(setup: Setup): Sim {
    Sim(Book(setup.initial, [], []), setup.initial, setup.initial, [], map[], map[])
  }

  function QuotesFrom(events: seq<Event>): map<Symbol, Quote>
    requires forall e :: e in events ==> e.Market?
  {
    if events == [] then map[]
    else
      var e := events[|events| - 1];
      QuotesFrom(events[..|events| - 1])[e.symbol := Quote(e.timestamp, e.close)]
  }

  function PricesFrom(events: seq<Event>): map<Symbol, real>
    requires forall e :: e in events ==> e.Market?
  {
    if events == [] then map[]
    else
      var e := events[|events| - 1];
      PricesFrom(events[..|events| - 1])[e.symbol := e.close]
  }

  lemma {:induction false} OneMoreBar(bars: seq<Event>, i: nat, before: map<Symbol, Quote>)
    requires i < |bars| && forall e :: e in bars ==> e.Market?
    ensures var e := bars[i];
            && (before + QuotesFrom(bars[..i]))[e.symbol := Quote(e.timestamp, e.close)]
               == before + QuotesFrom(bars[..i + 1])
            && PricesFrom(bars[..i])[e.symbol := e.close] == PricesFrom(bars[..i + 1])
    ensures bars[..i + 1] == bars[..i] + [bars[i]]
  {
    assert bars[..i + 1][..i] == bars[..i];
  }

  /** Marking a drained book at the latest closes. */
  function Marking(s: Sim, book: Book, time: int, prices: map<Symbol, real>, quotes: map<Symbol, Quote>): Sim {
    var latest := s.latest + prices;
    var equity := book.cash + Marked(book.holdings, latest);
    var peak := if equity > s.peak then equity else s.peak;
    Sim(book, equity, peak, s.curve + [Mark(time, equity, peak)], latest, quotes)
  }

  /** The book once everything that these events cause is handled. */
  ghost function DrainedBook(setup: Setup, v: View, b: Book, events: seq<Event>): Book {
    Drain(Handlers(setup, v), b, events).book
  }

  /** The bars of one timestamp: quotes, drain, mark. */
  ghost function Bars(setup: Setup, bars: seq<History>, index: nat, s: Sim, events: seq<Event>): Sim
    requires events != [] && forall e :: e in events ==> e.Market?
  {
    var quotes := s.quotes + QuotesFrom(events);
    var book := DrainedBook(setup, View(bars, index, quotes, s.equity), s.book, events);
    Marking(s, book, events[0].timestamp, PricesFrom(events), quotes)
  }

  /** One date. */
  ghost function Day(setup: Setup, f: Feed, s: Sim, k: nat): Sim
    requires k < |f.dates|
  {
    var events := EventsAt(f.bars, f.dates[k]);
    if events == [] then s else Bars(setup, f.bars, k + 1, s, events)
  }

  type DayStep = (Sim, nat) -> Sim

  ghost function Repeated(step: DayStep, s: Sim, k: nat): Sim
    decreases k
  {
    if k == 0 then s else step(Repeated(step, s, k - 1), k - 1)
  }

  ghost function Days(setup: Setup, f: Feed): DayStep {
    (s: Sim, k: nat) => if k < |f.dates| then Day(setup, f, s, k) else s
  }

  /** The state after the first `k` dates. */
  ghost function After(setup: Setup, f: Feed, k: nat): Sim { Repeated(Days(setup, f), Start(setup), k) }

  /** `_force_close_open_positions`: one fill per held symbol with a known bar. */
  function ForceFills(holdings: seq<Holding>, quotes: map<Symbol, Quote>, commission: real): seq<Event> {
    if holdings == [] then []
    else
      var h := holdings[0];
      (if h.symbol in quotes
       then [Fill(quotes[h.symbol].timestamp, h.symbol, h.qty, quotes[h.symbol].close, commission)]
       else [])
      + ForceFills(holdings[1..], quotes, commission)
  }

  lemma {:induction false} ForceFillsAreFills(holdings: seq<Holding>, quotes: map<Symbol, Quote>, commission: real)
    ensures forall e :: e in ForceFills(holdings, quotes, commission) ==> e.Fill? && e.commission == commission
  {
    if holdings == [] {
    } else {
      ForceFillsAreFills(holdings[1..], quotes, commission);
    }
  }

  /** The book once the listed holdings with a quote are sold, in order. */
  function SoldOut(b: Book, held: seq<Holding>, quotes: map<Symbol, Quote>, commission: real): Book
    decreases |held|
  {
    if held == [] then b
    else
      var h, rest := held[0], held[1..];
      if h.symbol !in quotes then SoldOut(b, rest, quotes, commission)
      else
        var fill := Fill(quotes[h.symbol].timestamp, h.symbol, h.qty, quotes[h.symbol].close, commission);
        SoldOut(FillBook(b, fill), rest, quotes, commission)
  }

  lemma {:induction false} OneSold(
      b: Book, held: seq<Holding>, i: nat, quotes: map<Symbol, Quote>, commission: real)
    requires i < |held|
    ensures SoldOut(b, held[i..], quotes, commission)
         == SoldOut(if held[i].symbol !in quotes then b
                    else
                      var q := quotes[held[i].symbol];
                      FillBook(b, Fill(q.timestamp, held[i].symbol, held[i].qty, q.close, commission)),
                    held[i + 1..], quotes, commission)
  {
    assert held[i..][1..] == held[i + 1..];
  }

  lemma {:induction false} SoldOutAppliesFills(
      b: Book, held: seq<Holding>, quotes: map<Symbol, Quote>, commission: real)
    ensures forall e :: e in ForceFills(held, quotes, commission) ==> e.Fill?
    ensures ApplyFills(b, ForceFills(held, quotes, commission)) == SoldOut(b, held, quotes, commission)
    decreases |held|
  {
    ForceFillsAreFills(held, quotes, commission);
    if held == [] {
    } else {
      var rest := ForceFills(held[1..], quotes, commission);
      if held[0].symbol in quotes {
        var q := quotes[held[0].symbol];
        var fill := Fill(q.timestamp, held[0].symbol, held[0].qty, q.close, commission);
        assert ForceFills(held, quotes, commission) == [fill] + rest;
        assert ([fill] + rest)[1..] == rest;
        SoldOutAppliesFills(FillBook(b, fill), held[1..], quotes, commission);
      } else {
        assert ForceFills(held, quotes, commission) == rest;
        SoldOutAppliesFills(b, held[1..], quotes, commission);
      }
    }
  }

  ghost function Closing(setup: Setup, s: Sim): Book {
    ForceFillsAreFills(s.book.holdings, s.quotes, setup.commission);
    ApplyFills(s.book, ForceFills(s.book.holdings, s.quotes, setup.commission))
  }

  lemma {:induction false} SlotOfSameTime(s: seq<Event>, t: int)
    requires forall k :: 0 <= k < |s| ==> s[k].timestamp == t
    ensures Slot(s, t) == |s|
  {
    if s == [] {
    } else {
      SlotOfSameTime(s[1..], t);
    }
  }

  // ------------------------------------------------------------------ the program

  class BacktestEngine {
    const setup: Setup
    const data: DataHandler
    const portfolio: Portfolio
    const events: EventQueue
    var currentBars: map<Symbol, Quote>

    constructor (setup: Setup, feed: Feed)
      ensures this.setup == setup && data.feed == feed
      ensures fresh(data) && fresh(portfolio) && fresh(events)
      ensures Ready()
    {
      this.setup := setup;
      data := new DataHandler(feed);
      portfolio := new Portfolio(setup.initial, setup.sizePct);
      events := new EventQueue();
      currentBars := map[];
    }

    ghost function State(): Sim
      reads this, portfolio
    {
      Sim(portfolio.Books(), portfolio.equity, portfolio.runningPeak, portfolio.curve, portfolio.latestPrices, currentBars)
    }

    ghost predicate Ready()
      reads this, data, portfolio, events
    {
      && events.Valid() && events.Pending() == []
      && data.barIndex == 0 && (data.continueBacktest <==> data.feed.dates != [])
      && State() == Start(setup) && portfolio.positionSizePct == setup.sizePct
    }

    /** The whole backtest: every date, then the forced close, which leaves the marked
        equity, the curve and the prices as they are. */
    method Run()
      requires Ready()
      modifies this, data, portfolio, events
      ensures var s := After(setup, data.feed, |data.feed.dates|);
              State() == s.(book := Closing(setup, s))
    {
      StreamDates();
      ForceCloseOpenPositions();
    }

    /** The outer loop of `run`. */
    method StreamDates()
      requires Ready()
      modifies this, data, portfolio, events
      ensures State() == After(setup, data.feed, |data.feed.dates|)
    {
      while data.continueBacktest
        invariant data.barIndex <= |data.feed.dates|
        invariant !data.continueBacktest ==> data.barIndex == |data.feed.dates|
        invariant events.Valid() && events.Pending() == []
        invariant portfolio.positionSizePct == setup.sizePct
        invariant State() == After(setup, data.feed, data.barIndex)
        decreases |data.feed.dates| - data.barIndex, data.continueBacktest
      {
        NextDate();
      }
    }

    method NextDate()
      requires data.barIndex <= |data.feed.dates|
      requires events.Valid() && events.Pending() == [] && portfolio.positionSizePct == setup.sizePct
      requires data.continueBacktest
      modifies this`currentBars, data, portfolio, events
      ensures events.Valid() && events.Pending() == []
      ensures var k := old(data.barIndex);
              if k == |data.feed.dates| then
                data.barIndex == k && !data.continueBacktest && State() == old(State())
              else
                data.barIndex == k + 1 && data.continueBacktest && State() == Day(setup, data.feed, old(State()), k)
    {
      var bars := data.NextBars();
      if bars != [] {
        assert bars[0] in bars;
        RunDay(bars);
      }
    }

    /** One pass of the outer loop over the bars just taken. */
    method RunDay(bars: seq<Event>)
      requires bars != [] && forall e :: e in bars ==> e.Market? && e.timestamp == bars[0].timestamp
      requires events.Valid() && events.Pending() == [] && portfolio.positionSizePct == setup.sizePct
      modifies this`currentBars, portfolio, events
      ensures events.Valid() && events.Pending() == []
      ensures State() == Bars(setup, data.feed.bars, data.barIndex, old(State()), bars)
    {
      ghost var s := State();
      var latest := Publish(bars);
      DrainDay(bars);
      ghost var book := portfolio.Books();
      assert book == DrainedBook(setup, View(data.feed.bars, data.barIndex, currentBars, s.equity), s.book, bars);
      MarkDay(latest, bars[0].timestamp, s);
    }

    /** Mark the book; of the state before the bars, the prices, peak and curve are unchanged. */
    method MarkDay(latest: map<Symbol, real>, now: int, ghost s: Sim)
      requires s.latest == portfolio.latestPrices && s.peak == portfolio.runningPeak && s.curve == portfolio.curve
      modifies portfolio`latestPrices, portfolio`equity, portfolio`runningPeak, portfolio`curve
      ensures State() == Marking(s, portfolio.Books(), now, latest, currentBars)
    {
      portfolio.UpdateMarkToMarket(latest, now);
    }

    /** The inner loop over a queue that holds the bars of one date. */
    method DrainDay(bars: seq<Event>)
      requires bars != [] && forall e :: e in bars ==> e.Market? && e.timestamp == bars[0].timestamp
      requires events.Valid() && events.Pending() == bars && portfolio.positionSizePct == setup.sizePct
      modifies events, portfolio`cash, portfolio`positions, portfolio`trades
      ensures events.Valid() && events.Pending() == []
      ensures portfolio.Books() == DrainedBook(setup, Frozen(), old(portfolio.Books()), bars)
    {
      ghost var _ := DrainEvents(bars[0].timestamp, Handlers(setup, Frozen()));
    }

    /** Queue the bars of one date and note their closes. */
    method Publish(bars: seq<Event>) returns (latest: map<Symbol, real>)
      requires events.Valid() && events.Pending() == [] && bars != []
      requires forall e :: e in bars ==> e.Market? && e.timestamp == bars[0].timestamp
      modifies this`currentBars, events
      ensures events.Valid() && events.Pending() == bars
      ensures currentBars == old(currentBars) + QuotesFrom(bars)
      ensures latest == PricesFrom(bars)
    {
      latest := map[];
      for i := 0 to |bars|
        invariant events.Valid() && events.Pending() == bars[..i]
        invariant currentBars == old(currentBars) + QuotesFrom(bars[..i])
        invariant latest == PricesFrom(bars[..i])
      {
        var e := bars[i];
        OneMoreBar(bars, i, old(currentBars));
        Enqueue(e);
        currentBars := currentBars[e.symbol := Quote(e.timestamp, e.close)];
        latest := latest[e.symbol := e.close];
      }
      assert bars[..|bars|] == bars;
    }

    /** Within one timestamp the queue is first in, first out. */
    method Enqueue(e: Event)
      requires events.Valid()
      requires forall x :: x in events.Pending() ==> x.timestamp == e.timestamp
      modifies events
      ensures events.Valid() && events.Pending() == old(events.Pending()) + [e]
    {
      ghost var before := events.Pending();
      assert forall k :: 0 <= k < |before| ==> before[k] in before;
      SlotOfSameTime(before, e.timestamp);
      events.Put(e);
      assert before[..|before|] == before && before[|before|..] == [];
    }

    ghost function Frozen(): View
      reads this, data, portfolio
    {
      View(data.feed.bars, data.barIndex, currentBars, portfolio.equity)
    }

    /** The inner loop of `run`, with every event it handles. */
    method DrainEvents(now: int, ghost g: Cause) returns (ghost trace: seq<Event>)
      requires Rising(g) && g == Handlers(setup, Frozen())
      requires events.Valid() && portfolio.positionSizePct == setup.sizePct
      requires forall e :: e in events.Pending() ==> e.timestamp == now
      modifies events, portfolio`cash, portfolio`positions, portfolio`trades
      ensures events.Valid() && events.Pending() == []
      ensures Drained(portfolio.Books(), trace) == Drain(g, old(portfolio.Books()), old(events.Pending()))
    {
      ghost var v := Frozen();
      ghost var whole := Drain(g, portfolio.Books(), events.Pending());
      trace := [];
      while !events.Empty()
        invariant events.Valid() && Frozen() == v
        invariant forall e :: e in events.Pending() ==> e.timestamp == now
        invariant Resumed(trace, Drain(g, portfolio.Books(), events.Pending())) == whole
        decreases Load(events.Pending())
      {
        ResumeStep(g, trace, portfolio.Books(), events.Pending());
        ghost var next := HandleNext(now, g);
        trace := trace + [next];
      }
    }

    /** Pop one event and handle it. */
    method HandleNext(now: int, ghost g: Cause) returns (event: Event)
      requires g == Handlers(setup, Frozen())
      requires events.Valid() && !events.Empty() && portfolio.positionSizePct == setup.sizePct
      requires forall e :: e in events.Pending() ==> e.timestamp == now
      modifies events, portfolio`cash, portfolio`positions, portfolio`trades
      ensures events.Valid() && event == old(events.Pending())[0]
      ensures forall e :: e in events.Pending() ==> e.timestamp == now
      ensures events.Pending() == NextQueue(g, old(portfolio.Books()), old(events.Pending()))
      ensures portfolio.Books() == NextBook(old(portfolio.Books()), event)
    {
      event := events.Get();
      assert old(events.Pending())[0] in old(events.Pending());
      assert old(events.Pending())[1..] == events.Pending();
      if event.Fill? {
        portfolio.UpdateFill(event);
      } else {
        Handle(event);
      }
    }

    /** MARKET, SIGNAL and ORDER handling: the caused event goes to the end of the queue. */
    method Handle(e: Event)
      requires events.Valid() && !e.Fill? && portfolio.positionSizePct == setup.sizePct
      requires forall x :: x in events.Pending() ==> x.timestamp == e.timestamp
      modifies events
      ensures events.Valid()
      ensures events.Pending() == old(events.Pending()) + Spawn(setup, Frozen(), portfolio.Books(), e)
    {
      var out: seq<Event>;
      match e {
        case Market(_, symbol, _) =>
          var window := data.GetBars(symbol, WINDOW);
          out := OnMarket(setup.strategy, window, Held(portfolio.positions, symbol), e);
        case Signal(_, symbol, _) =>
          var price := if symbol in currentBars then currentBars[symbol].close else 0.0;
          out := HandleSignal(Book(portfolio.cash, portfolio.positions, portfolio.trades),
                              portfolio.equity, portfolio.positionSizePct, e, price);
        case Order(_, symbol, _, _, _) =>
          out := ExecuteOrder(setup, e, if symbol in currentBars then Some(currentBars[symbol]) else None);
      }
      assert out == Spawn(setup, Frozen(), portfolio.Books(), e);
      if out != [] {
        assert out == [out[0]];
        Enqueue(out[0]);
      }
    }

    method ForceCloseOpenPositions()
      modifies portfolio`cash, portfolio`positions, portfolio`trades
      ensures portfolio.Books() == Closing(setup, old(State()))
    {
      var held := portfolio.positions;
      SoldOutAppliesFills(portfolio.Books(), held, currentBars, setup.commission);
      var i := 0;
      while i < |held|
        invariant 0 <= i <= |held|
        invariant SoldOut(portfolio.Books(), held[i..], currentBars, setup.commission)
               == SoldOut(old(portfolio.Books()), held, currentBars, setup.commission)
      {
        var h := held[i];
        OneSold(portfolio.Books(), held, i, currentBars, setup.commission);
        if h.symbol in currentBars {
          var bar := currentBars[h.symbol];
          portfolio.UpdateFill(Fill(bar.timestamp, h.symbol, h.qty, bar.close, setup.commission));
        }
        i := i + 1;
      }
    }
  }
}
