/** The portfolio of `backend/backtest_engine.py`: cash, open holdings, closed trades
    and the marked equity. Money is exact; `Shown` gives the rounded figures. */
module Ledger {
  import opened Money
  import opened Rounding
  import opened Events
  import opened Symbols

  datatype Holding = Holding(symbol: Symbol, qty: int, avgCost: real, entryTime: int)

  datatype Closed = Closed(symbol: Symbol, qty: int, avgCost: real, exitPrice: real, commission: real,
                           entryTime: int, exitTime: int)

  datatype Book = Book(cash: real, holdings: seq<Holding>, trades: seq<Closed>)

  /** Unrounded profit of a closed trade: both commissions are charged to it. */
  function Pnl(t: Closed): real { (t.exitPrice - t.avgCost) * t.qty as real - 2.0 * t.commission }

  /** The figures a trade record shows. */
  function Shown(t: Closed): (real, real, real) { (Round2(t.avgCost), Round2(t.exitPrice), Round2(Pnl(t))) }

  /** Index of a symbol's holding, or the number of holdings. */
  function Find(holdings: seq<Holding>, symbol: Symbol): (i: nat)
    ensures i <= |holdings|
    ensures i < |holdings| ==> holdings[i].symbol == symbol
    ensures forall k :: 0 <= k < i ==> holdings[k].symbol != symbol
  {
    if holdings == [] || holdings[0].symbol == symbol then 0 else 1 + Find(holdings[1..], symbol)
  }

  predicate Held(holdings: seq<Holding>, symbol: Symbol) { Find(holdings, symbol) < |holdings| }

  predicate OnePerSymbol(holdings: seq<Holding>) {
    forall i, j :: 0 <= i < j < |holdings| ==> holdings[i].symbol != holdings[j].symbol
  }

  function Without(holdings: seq<Holding>, i: nat): seq<Holding>
    requires i < |holdings|
  {
    holdings[..i] + holdings[i + 1..]
  }

  /** `update_fill`: a fill for a held symbol closes the holding, any other opens one. */
  function FillBook(b: Book, fill: Event): Book
    requires fill.Fill?
  {
    var i := Find(b.holdings, fill.symbol);
    if i == |b.holdings| then
      Book(b.cash - (Value(fill.quantity, fill.fillPrice) + fill.commission),
           b.holdings + [Holding(fill.symbol, fill.quantity, fill.fillPrice, fill.timestamp)],
           b.trades)
    else
      var h := b.holdings[i];
      Book(b.cash + (Value(h.qty, fill.fillPrice) - fill.commission),
           Without(b.holdings, i),
           b.trades + [Closed(h.symbol, h.qty, h.avgCost, fill.fillPrice, fill.commission, h.entryTime, fill.timestamp)])
  }

  /** A fill of a symbol that is not held opens a holding and pays for it. */
  lemma {:induction false} BuyBooks(b: Book, fill: Event)
    requires fill.Fill? && forall h :: h in b.holdings ==> h.symbol != fill.symbol
    ensures var after := FillBook(b, fill);
            && after.cash == b.cash - fill.quantity as real * fill.fillPrice - fill.commission
            && after.trades == b.trades && |after.holdings| == |b.holdings| + 1
            && after.holdings[..|b.holdings|] == b.holdings
            && var h := after.holdings[|b.holdings|];
               && h.symbol == fill.symbol && h.qty == fill.quantity
               && h.avgCost == fill.fillPrice && h.entryTime == fill.timestamp
  {
    assert forall k :: 0 <= k < |b.holdings| ==> b.holdings[k] in b.holdings;
  }

  /** A fill of a held symbol sells the whole holding, whatever quantity it names, and books
      the trade with both of its times and prices. */
  lemma {:induction false} SaleBooks(b: Book, fill: Event, before: seq<Holding>, h: Holding, rest: seq<Holding>)
    requires fill.Fill? && b.holdings == before + [h] + rest && h.symbol == fill.symbol
    requires forall x :: x in before ==> x.symbol != fill.symbol
    ensures var after := FillBook(b, fill);
            && after.cash == b.cash + h.qty as real * fill.fillPrice - fill.commission
            && after.holdings == before + rest
            && |after.trades| == |b.trades| + 1 && after.trades[..|b.trades|] == b.trades
            && var t := after.trades[|b.trades|];
               && t.symbol == h.symbol && t.qty == h.qty && t.commission == fill.commission
               && t.avgCost == h.avgCost && t.exitPrice == fill.fillPrice
               && t.entryTime == h.entryTime && t.exitTime == fill.timestamp
  {
    assert b.holdings[|before|] == h;
    assert forall k :: 0 <= k < |before| ==> b.holdings[k] == before[k] && before[k] in before;
  }

  function Outlay(h: Holding, commission: real): real { Value(h.qty, h.avgCost) + commission }

  /** Cost basis of the open holdings, entry commissions included. */
  function Invested(holdings: seq<Holding>, commission: real): real {
    if holdings == [] then 0.0
    else Invested(holdings[..|holdings| - 1], commission) + Outlay(holdings[|holdings| - 1], commission)
  }

  function TotalPnl(trades: seq<Closed>): real {
    if trades == [] then 0.0 else TotalPnl(trades[..|trades| - 1]) + Pnl(trades[|trades| - 1])
  }

  lemma {:induction false} InvestedWithout(holdings: seq<Holding>, i: nat, commission: real)
    requires i < |holdings|
    ensures Invested(holdings, commission) == Invested(Without(holdings, i), commission) + Outlay(holdings[i], commission)
  {
    var n := |holdings|;
    if i == n - 1 {
      assert Without(holdings, i) == holdings[..n - 1];
    } else {
      InvestedWithout(holdings[..n - 1], i, commission);
      var w := Without(holdings, i);
      assert w[..|w| - 1] == Without(holdings[..n - 1], i);
    }
  }

  /** Cash is what was started with, plus what closed trades earned, minus what is invested. */
  ghost predicate Balanced(b: Book, initial: real, commission: real) {
    b.cash == initial + TotalPnl(b.trades) - Invested(b.holdings, commission)
  }

  lemma {:induction false} BuyKeepsBalance(b: Book, h: Holding, initial: real, commission: real)
    requires Balanced(b, initial, commission)
    ensures Balanced(Book(b.cash - Outlay(h, commission), b.holdings + [h], b.trades), initial, commission)
  {
    assert (b.holdings + [h])[..|b.holdings|] == b.holdings;
  }

  lemma {:induction false} PnlOfSale(h: Holding, price: real, commission: real, time: int)
    ensures Pnl(Closed(h.symbol, h.qty, h.avgCost, price, commission, h.entryTime, time))
         == Value(h.qty, price) - commission - Outlay(h, commission)
  {
  }

  /** A trade record shows prices and profit to the cent, both commissions taken off. */
  lemma {:induction false} ShownToTheCent(t: Closed)
    ensures var (entry, exit, pnl) := Shown(t);
            && -0.005 <= entry - t.avgCost <= 0.005 && -0.005 <= exit - t.exitPrice <= 0.005
            && -0.005 <= pnl - (Value(t.qty, t.exitPrice) - Value(t.qty, t.avgCost) - 2.0 * t.commission) <= 0.005
  {
    PnlOfSale(Holding(t.symbol, t.qty, t.avgCost, t.entryTime), t.exitPrice, t.commission, t.exitTime);
  }

  lemma {:induction false} SaleKeepsBalance(b: Book, fill: Event, initial: real)
    requires fill.Fill? && Balanced(b, initial, fill.commission) && Held(b.holdings, fill.symbol)
    ensures Balanced(FillBook(b, fill), initial, fill.commission)
  {
    var i, after := Find(b.holdings, fill.symbol), FillBook(b, fill);
    var h, t := b.holdings[i], after.trades[|b.trades|];
    InvestedWithout(b.holdings, i, fill.commission);
    assert after.trades[..|b.trades|] == b.trades;
    assert TotalPnl(after.trades) == TotalPnl(b.trades) + Pnl(t);
    PnlOfSale(h, fill.fillPrice, fill.commission, fill.timestamp);
  }

  lemma {:induction false} FillKeepsBalance(b: Book, fill: Event, initial: real)
    requires fill.Fill? && Balanced(b, initial, fill.commission)
    ensures Balanced(FillBook(b, fill), initial, fill.commission)
  {
    if Held(b.holdings, fill.symbol) {
      SaleKeepsBalance(b, fill, initial);
    } else {
      BuyKeepsBalance(b, Holding(fill.symbol, fill.quantity, fill.fillPrice, fill.timestamp), initial, fill.commission);
    }
  }

  lemma {:induction false} HeldAt(holdings: seq<Holding>, k: nat)
    requires k < |holdings|
    ensures Held(holdings, holdings[k].symbol)
  {
  }

  lemma {:induction false} HeldAfterBuy(holdings: seq<Holding>, h: Holding, symbol: Symbol)
    requires OnePerSymbol(holdings) && !Held(holdings, h.symbol)
    ensures OnePerSymbol(holdings + [h])
    ensures Held(holdings + [h], symbol) <==> Held(holdings, symbol) || symbol == h.symbol
  {
    var after := holdings + [h];
    var k := Find(holdings, symbol);
    if k < |holdings| {
      assert after[k] == holdings[k];
      HeldAt(after, k);
    } else if symbol == h.symbol {
      assert after[|holdings|] == h;
      HeldAt(after, |holdings|);
    }
    if Held(after, symbol) && Find(after, symbol) < |holdings| { HeldAt(holdings, Find(after, symbol)); }
  }

  lemma {:induction false} HeldAfterSale(holdings: seq<Holding>, i: nat, symbol: Symbol)
    requires OnePerSymbol(holdings) && i < |holdings|
    ensures OnePerSymbol(Without(holdings, i))
    ensures Held(Without(holdings, i), symbol) <==> Held(holdings, symbol) && symbol != holdings[i].symbol
  {
    var after := Without(holdings, i);
    var k, n := Find(holdings, symbol), Find(after, symbol);
    if k < |holdings| && k != i {
      assert after[if k < i then k else k - 1] == holdings[k];
      HeldAt(after, if k < i then k else k - 1);
    }
    if n < |after| {
      assert after[n] == holdings[if n < i then n else n + 1];
      HeldAt(holdings, if n < i then n else n + 1);
    }
  }

  /** The holding of every symbol other than the filled one is untouched. */
  lemma {:induction false} FillTouchesOneSymbol(b: Book, fill: Event, symbol: Symbol)
    requires fill.Fill? && OnePerSymbol(b.holdings)
    ensures OnePerSymbol(FillBook(b, fill).holdings)
    ensures Held(FillBook(b, fill).holdings, fill.symbol) <==> !Held(b.holdings, fill.symbol)
    ensures symbol != fill.symbol ==> (Held(FillBook(b, fill).holdings, symbol) <==> Held(b.holdings, symbol))
  {
    var i := Find(b.holdings, fill.symbol);
    if i < |b.holdings| {
      HeldAfterSale(b.holdings, i, symbol);
      HeldAfterSale(b.holdings, i, fill.symbol);
    } else {
      var h := Holding(fill.symbol, fill.quantity, fill.fillPrice, fill.timestamp);
      HeldAfterBuy(b.holdings, h, symbol);
      HeldAfterBuy(b.holdings, h, fill.symbol);
    }
  }

  /** Market value of the holdings at the latest known prices, else at cost. */
  function Marked(holdings: seq<Holding>, prices: map<Symbol, real>): real {
    if holdings == [] then 0.0
    else
      var h := holdings[|holdings| - 1];
      Marked(holdings[..|holdings| - 1], prices)
      + Value(h.qty, if h.symbol in prices then prices[h.symbol] else h.avgCost)
  }

  datatype Mark = Mark(time: int, equity: real, peak: real)

  class Portfolio {
    const initialCapital: real
    const positionSizePct: real
    var cash: real
    var equity: real
    var positions: seq<Holding>
    var trades: seq<Closed>
    var curve: seq<Mark>
    var latestPrices: map<Symbol, real>
    var runningPeak: real

    constructor (initialCapital: real, positionSizePct: real)
      ensures this.initialCapital == initialCapital && this.positionSizePct == positionSizePct
      ensures Books() == Book(initialCapital, [], []) && equity == runningPeak == initialCapital
      ensures curve == [] && latestPrices == map[]
    {
      this.initialCapital, this.positionSizePct := initialCapital, positionSizePct;
      cash, equity, runningPeak := initialCapital, initialCapital, initialCapital;
      positions, trades, curve, latestPrices := [], [], [], map[];
    }

    ghost function Books(): Book
      reads this
    {
      Book(cash, positions, trades)
    }

    method UpdateFill(fill: Event)
      requires fill.Fill?
      modifies this`cash, this`positions, this`trades
      ensures Books() == FillBook(old(Books()), fill)
    {
      var cost := Value(fill.quantity, fill.fillPrice) + fill.commission;
      var i := Find(positions, fill.symbol);
      if i == |positions| {
        positions := positions + [Holding(fill.symbol, fill.quantity, fill.fillPrice, fill.timestamp)];
        cash := cash - cost;
      } else {
        var pos := positions[i];
        positions := positions[..i] + positions[i + 1..];
        cash := cash + (Value(pos.qty, fill.fillPrice) - fill.commission);
        trades := trades + [Closed(pos.symbol, pos.qty, pos.avgCost, fill.fillPrice, fill.commission,
                                   pos.entryTime, fill.timestamp)];
      }
    }

    method UpdateMarkToMarket(prices: map<Symbol, real>, timestamp: int)
      modifies this`latestPrices, this`equity, this`runningPeak, this`curve
      ensures latestPrices == old(latestPrices) + prices
      ensures equity == cash + Marked(positions, latestPrices)
      ensures runningPeak == (if equity > old(runningPeak) then equity else old(runningPeak))
      ensures curve == old(curve) + [Mark(timestamp, equity, runningPeak)]
    {
      latestPrices := latestPrices + prices;
      var value := 0.0;
      for i := 0 to |positions|
        invariant value == Marked(positions[..i], latestPrices)
      {
        var pos := positions[i];
        assert positions[..i + 1][..i] == positions[..i];
        value := value + Value(pos.qty, if pos.symbol in latestPrices then latestPrices[pos.symbol] else pos.avgCost);
      }
      assert positions[..|positions|] == positions;
      equity := cash + value;
      if equity > runningPeak { runningPeak := equity; }
      curve := curve + [Mark(timestamp, equity, runningPeak)];
    }
  }
}
