/** Realized P&L of `backend/portfolio_analytics.py`: canonical rows are scored as they
    stand, the remaining rows are matched lot by lot, first in, first out. */
module Fifo {
  import opened Money
  import opened Options
  import opened Symbols

  datatype Action = BUY | SELL | OTHER

  /** A trade row. A missing price or id is the zero or the empty string it defaults to. */
  datatype Row = Row(
    id: string, positionId: string, symbol: Symbol, action: Action, quantity: int,
    fillPrice: real, price: real, timestamp: int,
    realizedPnl: Option<real>, entryPrice: Option<real>, exitPrice: Option<real>)

  datatype Lot = Lot(qty: nat, price: real, ts: int)

  datatype Match = Match(symbol: Symbol, entryTs: int, exitTs: int, entryPrice: real, exitPrice: real, qty: nat)

  predicate Canonical(r: Row) { r.realizedPnl.Some? && r.entryPrice.Some? && r.exitPrice.Some? }

  function Shares(r: Row): nat { if r.quantity >= 0 then r.quantity else -r.quantity }

  function PriceOf(r: Row): real { if r.fillPrice != 0.0 then r.fillPrice else r.price }

  /** Ids already scored: canonical rows and the entries they are linked to. */
  function CanonicalIds(rows: seq<Row>): set<string> {
    if rows == [] then {}
    else
      var r := rows[|rows| - 1];
      CanonicalIds(rows[..|rows| - 1]) +
      if Canonical(r) then {r.id} + (if r.positionId != "" then {r.positionId} else {}) else {}
  }

  function Without(rows: seq<Row>, ids: set<string>): seq<Row> {
    if rows == [] then []
    else
      var r := rows[|rows| - 1];
      Without(rows[..|rows| - 1], ids) + if r.id in ids then [] else [r]
  }

  function Legacy(rows: seq<Row>): seq<Row> { Without(rows, CanonicalIds(rows)) }

  // ------------------------------------------------------------------ stable sort

  /** Python's `sorted` by timestamp: a row goes behind all rows not later than it. */
  function InsertByTime(sorted: seq<Row>, r: Row): seq<Row> {
    if sorted == [] || sorted[|sorted| - 1].timestamp <= r.timestamp then sorted + [r]
    else InsertByTime(sorted[..|sorted| - 1], r) + [sorted[|sorted| - 1]]
  }

  function SortByTime(rows: seq<Row>): seq<Row> {
    if rows == [] then [] else InsertByTime(SortByTime(rows[..|rows| - 1]), rows[|rows| - 1])
  }

  predicate InTimeOrder(rows: seq<Row>) {
    forall i, j :: 0 <= i < j < |rows| ==> rows[i].timestamp <= rows[j].timestamp
  }

  /** The rows of one timestamp, in their order. */
  function AtTime(rows: seq<Row>, t: int): seq<Row> {
    if rows == [] then []
    else AtTime(rows[..|rows| - 1], t) + if rows[|rows| - 1].timestamp == t then [rows[|rows| - 1]] else []
  }

  /** Everything in the result is bounded by a bound on the parts. */
  predicate NotLater(rows: seq<Row>, t: int) { forall i :: 0 <= i < |rows| ==> rows[i].timestamp <= t }

  lemma {:induction false} InsertIsSorted(sorted: seq<Row>, r: Row, bound: int)
    requires InTimeOrder(sorted)
    ensures InTimeOrder(InsertByTime(sorted, r))
    ensures NotLater(sorted, bound) && r.timestamp <= bound ==> NotLater(InsertByTime(sorted, r), bound)
  {
    if sorted != [] && sorted[|sorted| - 1].timestamp > r.timestamp {
      var init, last := sorted[..|sorted| - 1], sorted[|sorted| - 1];
      InsertIsSorted(init, r, last.timestamp);
      InsertIsSorted(init, r, bound);
      assert NotLater(init, last.timestamp);
    }
  }

  lemma {:induction false} InsertKeepsTies(sorted: seq<Row>, r: Row, t: int)
    ensures AtTime(InsertByTime(sorted, r), t) == AtTime(sorted, t) + if r.timestamp == t then [r] else []
  {
    if sorted == [] || sorted[|sorted| - 1].timestamp <= r.timestamp {
      assert (sorted + [r])[..|sorted|] == sorted;
    } else {
      var init, last := sorted[..|sorted| - 1], sorted[|sorted| - 1];
      InsertKeepsTies(init, r, t);
      var out := InsertByTime(init, r);
      assert (out + [last])[..|out|] == out;
    }
  }

  /** Sorted by time, and rows of equal time keep their order. */
  lemma {:induction false} SortIsStable(rows: seq<Row>, t: int)
    ensures InTimeOrder(SortByTime(rows))
    ensures AtTime(SortByTime(rows), t) == AtTime(rows, t)
  {
    if rows == [] {
    } else {
      SortIsStable(rows[..|rows| - 1], t);
      InsertIsSorted(SortByTime(rows[..|rows| - 1]), rows[|rows| - 1], t);
      InsertKeepsTies(SortByTime(rows[..|rows| - 1]), rows[|rows| - 1], t);
    }
  }

  // ------------------------------------------------------------------ lot matching

  /** Open lots, matches so far. */
  datatype Desk = Desk(lots: map<Symbol, seq<Lot>>, matched: seq<Match>)

  function LotsOf(lots: map<Symbol, seq<Lot>>, s: Symbol): seq<Lot> { if s in lots then lots[s] else [] }

  /** The inner loop of a sale: what is left of the lots, and the matches it makes. */
  function SellLots(lots: seq<Lot>, remaining: nat, symbol: Symbol, price: real, ts: int): (seq<Lot>, seq<Match>)
    decreases |lots|
  {
    if remaining == 0 || lots == [] then (lots, [])
    else
      var lot := lots[0];
      var fill := Least(remaining, lot.qty);
      var m := Match(symbol, lot.ts, ts, lot.price, price, fill);
      if lot.qty <= fill then
        var (rest, ms) := SellLots(lots[1..], remaining - fill, symbol, price, ts);
        (rest, [m] + ms)
      else ([lot.(qty := lot.qty - fill)] + lots[1..], [m])
  }

  function Handle(d: Desk, r: Row): Desk {
    if PriceOf(r) == 0.0 || Shares(r) == 0 then d
    else
      var lots := LotsOf(d.lots, r.symbol);
      match r.action
      case BUY => d.(lots := d.lots[r.symbol := lots + [Lot(Shares(r), PriceOf(r), r.timestamp)]])
      case SELL =>
        var (rest, ms) := SellLots(lots, Shares(r), r.symbol, PriceOf(r), r.timestamp);
        Desk(d.lots[r.symbol := rest], d.matched + ms)
      case OTHER => d
  }

  function MatchAll(rows: seq<Row>): Desk {
    if rows == [] then Desk(map[], []) else Handle(MatchAll(rows[..|rows| - 1]), rows[|rows| - 1])
  }

  function MatchPnl(m: Match): real { (m.exitPrice - m.entryPrice) * m.qty as real }

  function TotalOf(ms: seq<Match>): real {
    if ms == [] then 0.0 else TotalOf(ms[..|ms| - 1]) + MatchPnl(ms[|ms| - 1])
  }

  function CanonicalTotal(rows: seq<Row>): real {
    if rows == [] then 0.0
    else
      var r := rows[|rows| - 1];
      CanonicalTotal(rows[..|rows| - 1]) + if Canonical(r) then r.realizedPnl.value else 0.0
  }

  /** The rows scored as they stand. */
  function CanonicalRows(rows: seq<Row>): seq<Row> {
    if rows == [] then []
    else
      var r := rows[|rows| - 1];
      CanonicalRows(rows[..|rows| - 1]) + if Canonical(r) then [r] else []
  }

  lemma {:induction false} TotalAppend(a: seq<Match>, m: Match)
    ensures TotalOf(a + [m]) == TotalOf(a) + MatchPnl(m)
  {
    assert (a + [m])[..|a|] == a;
  }

  lemma {:induction false} TotalConcat(a: seq<Match>, b: seq<Match>)
    ensures TotalOf(a + b) == TotalOf(a) + TotalOf(b)
  {
    if b == [] {
      assert a + b == a;
    } else {
      assert (a + b)[..|a + b| - 1] == a + b[..|b| - 1];
      TotalConcat(a, b[..|b| - 1]);
    }
  }

  // ------------------------------------------------------------------ the program

  /** `compute_realized_pnl` up to the unrounded total and the matched rows. */
  method ComputeRealizedPnl(trades: seq<Row>) returns (canonical: seq<Row>, matched: seq<Match>, total: real)
    ensures canonical == CanonicalRows(trades)
    ensures matched == MatchAll(SortByTime(Legacy(trades))).matched
    ensures total == CanonicalTotal(trades) + TotalOf(matched)
  {
    canonical, total := [], 0.0;
    var ids: set<string> := {};
    for i := 0 to |trades|
      invariant canonical == CanonicalRows(trades[..i])
      invariant total == CanonicalTotal(trades[..i])
      invariant ids == CanonicalIds(trades[..i])
    {
      var trade := trades[i];
      assert trades[..i + 1][..i] == trades[..i];
      if Canonical(trade) {
        canonical := canonical + [trade];
        total := total + trade.realizedPnl.value;
        ids := ids + {trade.id};
        if trade.positionId != "" { ids := ids + {trade.positionId}; }
      }
    }
    assert trades[..|trades|] == trades;
    var legacy := SortByTime(Without(trades, ids));
    var pnl;
    matched, pnl := MatchLegacy(legacy);
    total := total + pnl;
  }

  /** The FIFO loop over the sorted legacy rows. */
  method MatchLegacy(rows: seq<Row>) returns (matched: seq<Match>, pnl: real)
    ensures matched == MatchAll(rows).matched && pnl == TotalOf(matched)
  {
    matched, pnl := [], 0.0;
    var buys: map<Symbol, seq<Lot>> := map[];
    for i := 0 to |rows|
      invariant Desk(buys, matched) == MatchAll(rows[..i])
      invariant pnl == TotalOf(matched)
    {
      var trade := rows[i];
      assert rows[..i + 1][..i] == rows[..i];
      if PriceOf(trade) == 0.0 || Shares(trade) == 0 { continue; }
      var lots := LotsOf(buys, trade.symbol);
      if trade.action == BUY {
        buys := buys[trade.symbol := lots + [Lot(Shares(trade), PriceOf(trade), trade.timestamp)]];
      } else if trade.action == SELL {
        var rest, made, gain := SellFromLots(lots, trade);
        buys := buys[trade.symbol := rest];
        TotalConcat(matched, made);
        matched := matched + made;
        pnl := pnl + gain;
      }
    }
    assert rows[..|rows|] == rows;
  }

  /** Taking from the oldest lot leaves a smaller sale with the same outcome. */
  lemma {:induction false} TakeOldest(
      lots: seq<Lot>, remaining: nat, made: seq<Match>, symbol: Symbol, price: real, ts: int)
    requires remaining > 0 && lots != []
    ensures var lot := lots[0];
            var fill := Least(remaining, lot.qty);
            var m := Match(symbol, lot.ts, ts, lot.price, price, fill);
            var left := if lot.qty - fill <= 0 then lots[1..] else [lot.(qty := lot.qty - fill)] + lots[1..];
            var (rest, ms), (rest', ms') := SellLots(lots, remaining, symbol, price, ts),
                                            SellLots(left, remaining - fill, symbol, price, ts);
            rest == rest' && made + ms == (made + [m]) + ms'
  {
    var lot := lots[0];
    var fill := Least(remaining, lot.qty);
    var m := Match(symbol, lot.ts, ts, lot.price, price, fill);
    if lot.qty <= fill {
      var ms := SellLots(lots[1..], remaining - fill, symbol, price, ts).1;
      assert made + ([m] + ms) == (made + [m]) + ms;
    } else {
      assert remaining == fill;
      assert made + [m] == (made + [m]) + [];
    }
  }

  /** The `while` loop of one sale: take from the oldest lot until filled or out of lots. */
  method SellFromLots(open: seq<Lot>, trade: Row) returns (lots: seq<Lot>, made: seq<Match>, gain: real)
    ensures (lots, made) == SellLots(open, Shares(trade), trade.symbol, PriceOf(trade), trade.timestamp)
    ensures gain == TotalOf(made)
  {
    var price := PriceOf(trade);
    var remaining := Shares(trade);
    lots, made, gain := open, [], 0.0;
    ghost var whole := SellLots(open, remaining, trade.symbol, price, trade.timestamp);
    assert [] + whole.1 == whole.1;
    while remaining > 0 && lots != []
      invariant var (rest, ms) := SellLots(lots, remaining, trade.symbol, price, trade.timestamp);
                whole == (rest, made + ms)
      invariant gain == TotalOf(made)
      decreases remaining, |lots|
    {
      var lot := lots[0];
      var fill := Least(remaining, lot.qty);
      var m := Match(trade.symbol, lot.ts, trade.timestamp, lot.price, price, fill);
      TakeOldest(lots, remaining, made, trade.symbol, price, trade.timestamp);
      ghost var left := if lot.qty - fill <= 0 then lots[1..] else [lot.(qty := lot.qty - fill)] + lots[1..];
      ghost var sale := SellLots(left, remaining - fill, trade.symbol, price, trade.timestamp);
      assert whole == (sale.0, (made + [m]) + sale.1);
      TotalAppend(made, m);
      gain := gain + MatchPnl(m);
      made := made + [m];
      if lot.qty - fill <= 0 {
        lots := lots[1..];
      } else {
        lots := [lot.(qty := lot.qty - fill)] + lots[1..];
      }
      remaining := remaining - fill;
    }
    assert made + [] == made;
  }
}
