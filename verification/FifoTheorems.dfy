/** Lot matching refines a queue of single shares, symbol by symbol. */
module FifoTheorems {
  import opened Money
  import opened Symbols
  import opened Fifo

  // ------------------------------------------------------------------ the reference

  /** One share in the queue, and one share matched. */
  datatype Share = Share(price: real, ts: int)
  datatype Pair = Pair(symbol: Symbol, entryTs: int, exitTs: int, entryPrice: real, exitPrice: real)

  /** A queue of single shares, the shares matched so far, the sales that found none. */
  datatype Queue = Queue(shares: seq<Share>, pairs: seq<Pair>, dropped: nat)

  function Copies<T>(x: T, n: nat): (s: seq<T>)
    ensures |s| == n && forall i :: 0 <= i < n ==> s[i] == x
  {
    if n == 0 then [] else [x] + Copies(x, n - 1)
  }

  /** The fill price, or the order price where there is no fill price. */
  function TradePrice(r: Row): real { if r.fillPrice == 0.0 then r.price else r.fillPrice }

  /** How many shares, whatever the sign. */
  function Size(r: Row): nat { if r.quantity < 0 then -r.quantity else r.quantity }

  /** Sell one share: the oldest in the queue, or none. */
  function SellOne(q: Queue, r: Row): Queue {
    if q.shares == [] then q.(dropped := q.dropped + 1)
    else Queue(q.shares[1..],
               q.pairs + [Pair(r.symbol, q.shares[0].ts, r.timestamp, q.shares[0].price, TradePrice(r))],
               q.dropped)
  }

  function SellShares(q: Queue, r: Row, n: nat): Queue
    decreases n
  {
    if n == 0 then q else SellShares(SellOne(q, r), r, n - 1)
  }

  function Trade(q: Queue, r: Row): Queue {
    if TradePrice(r) == 0.0 then q
    else
      match r.action
      case BUY => q.(shares := q.shares + Copies(Share(TradePrice(r), r.timestamp), Size(r)))
      case SELL => SellShares(q, r, Size(r))
      case OTHER => q
  }

  function Run(rows: seq<Row>): Queue {
    if rows == [] then Queue([], [], 0) else Trade(Run(rows[..|rows| - 1]), rows[|rows| - 1])
  }

  /** The rows of one symbol, in order. */
  function Of(rows: seq<Row>, s: Symbol): seq<Row> {
    if rows == [] then []
    else Of(rows[..|rows| - 1], s) + if rows[|rows| - 1].symbol == s then [rows[|rows| - 1]] else []
  }

  // ------------------------------------------------------------------ expansion

  function LotShares(lots: seq<Lot>): seq<Share> {
    if lots == [] then [] else Copies(Share(lots[0].price, lots[0].ts), lots[0].qty) + LotShares(lots[1..])
  }

  function MatchPairs(m: Match): seq<Pair> {
    Copies(Pair(m.symbol, m.entryTs, m.exitTs, m.entryPrice, m.exitPrice), m.qty)
  }

  /** The matched shares of one symbol, one by one. */
  function PairsOf(ms: seq<Match>, s: Symbol): seq<Pair> {
    if ms == [] then []
    else PairsOf(ms[..|ms| - 1], s) + if ms[|ms| - 1].symbol == s then MatchPairs(ms[|ms| - 1]) else []
  }

  lemma {:induction false} PairsConcat(a: seq<Match>, b: seq<Match>, s: Symbol)
    ensures PairsOf(a + b, s) == PairsOf(a, s) + PairsOf(b, s)
  {
    if b == [] {
      assert a + b == a;
    } else {
      assert (a + b)[..|a + b| - 1] == a + b[..|b| - 1];
      PairsConcat(a, b[..|b| - 1], s);
    }
  }

  lemma {:induction false} LotSharesAppend(lots: seq<Lot>, lot: Lot)
    ensures LotShares(lots + [lot]) == LotShares(lots) + Copies(Share(lot.price, lot.ts), lot.qty)
  {
    if lots == [] {
      assert LotShares([lot]) == Copies(Share(lot.price, lot.ts), lot.qty) + LotShares([lot][1..]);
    } else {
      assert (lots + [lot])[1..] == lots[1..] + [lot];
      LotSharesAppend(lots[1..], lot);
    }
  }

  lemma {:induction false} CopiesSplit<T>(x: T, n: nat, k: nat)
    requires k <= n
    ensures Copies(x, n) == Copies(x, k) + Copies(x, n - k)
  {
  }

  /** The sold shares of a sale, as pairs: the first `n` of the queue. */
  function Sold(shares: seq<Share>, r: Row, n: nat): seq<Pair>
    requires n <= |shares|
  {
    seq(n, i requires 0 <= i < n => Pair(r.symbol, shares[i].ts, r.timestamp, shares[i].price, TradePrice(r)))
  }

  /** Selling share by share takes the oldest shares and drops what is missing. */
  lemma {:induction false} SellSharesTakesOldest(q: Queue, r: Row, n: nat)
    ensures var k := Least(n, |q.shares|);
            SellShares(q, r, n) == Queue(q.shares[k..], q.pairs + Sold(q.shares, r, k), q.dropped + (n - k))
    decreases n
  {
    var k := Least(n, |q.shares|);
    if n == 0 {
    } else {
      SellSharesTakesOldest(SellOne(q, r), r, n - 1);
      if q.shares != [] {
        assert Sold(q.shares, r, k) == Sold(q.shares, r, 1) + Sold(q.shares[1..], r, k - 1);
        assert q.shares[1..][k - 1..] == q.shares[k..];
        assert q.pairs + Sold(q.shares, r, 1) + Sold(q.shares[1..], r, k - 1) == q.pairs + Sold(q.shares, r, k);
      } else {
        assert Sold(q.shares, r, 0) == [];
      }
    }
    assert q.shares[0..] == q.shares && q.pairs + [] == q.pairs;
  }

  lemma {:induction false} SoldSplit(shares: seq<Share>, r: Row, n: nat, k: nat)
    requires n <= k <= |shares|
    ensures Sold(shares, r, k) == Sold(shares, r, n) + Sold(shares[n..], r, k - n)
    ensures shares[n..][k - n..] == shares[k..]
  {
  }

  /** What is taken from the oldest lot is the front of the share queue. */
  lemma {:induction false} FirstMatchSells(lots: seq<Lot>, fill: nat, r: Row)
    requires lots != [] && fill <= lots[0].qty
    ensures var m := Match(r.symbol, lots[0].ts, r.timestamp, lots[0].price, PriceOf(r), fill);
            fill <= |LotShares(lots)| && PairsOf([m], r.symbol) == Sold(LotShares(lots), r, fill)
  {
    var m := Match(r.symbol, lots[0].ts, r.timestamp, lots[0].price, PriceOf(r), fill);
    assert [m][..0] == [];
    assert PairsOf([m], r.symbol) == PairsOf([m][..0], r.symbol) + MatchPairs(m) == MatchPairs(m);
  }

  lemma {:induction false} ShrunkLotShares(lots: seq<Lot>, fill: nat)
    requires lots != [] && fill < lots[0].qty
    ensures fill <= |LotShares(lots)|
    ensures LotShares([lots[0].(qty := lots[0].qty - fill)] + lots[1..]) == LotShares(lots)[fill..]
  {
    var lot := lots[0];
    var share := Share(lot.price, lot.ts);
    CopiesSplit(share, lot.qty, fill);
    var rest := [lot.(qty := lot.qty - fill)] + lots[1..];
    assert rest[1..] == lots[1..];
    assert LotShares(lots) == Copies(share, fill) + LotShares(rest);
  }

  /** The lots a sale leaves are the share queue without the shares sold. */
  lemma {:induction false} SaleLeavesRest(lots: seq<Lot>, remaining: nat, symbol: Symbol, price: real, ts: int)
    ensures LotShares(SellLots(lots, remaining, symbol, price, ts).0)
         == LotShares(lots)[Least(remaining, |LotShares(lots)|)..]
    decreases |lots|
  {
    if remaining > 0 && lots != [] {
      var fill := Least(remaining, lots[0].qty);
      if lots[0].qty <= fill {
        SaleLeavesRest(lots[1..], remaining - fill, symbol, price, ts);
        assert LotShares(lots)[fill..] == LotShares(lots[1..]);
      } else {
        ShrunkLotShares(lots, fill);
      }
    }
  }

  /** The matches of a sale are the shares sold, oldest first. */
  lemma {:induction false} SaleMatchesOldest(lots: seq<Lot>, remaining: nat, r: Row)
    ensures PairsOf(SellLots(lots, remaining, r.symbol, PriceOf(r), r.timestamp).1, r.symbol)
         == Sold(LotShares(lots), r, Least(remaining, |LotShares(lots)|))
    decreases |lots|
  {
    if remaining > 0 && lots != [] {
      TermsAgree(r);
      var fill := Least(remaining, lots[0].qty);
      FirstMatchSells(lots, fill, r);
      if lots[0].qty <= fill {
        var m := Match(r.symbol, lots[0].ts, r.timestamp, lots[0].price, PriceOf(r), fill);
        var ms := SellLots(lots[1..], remaining - fill, r.symbol, PriceOf(r), r.timestamp).1;
        SaleMatchesOldest(lots[1..], remaining - fill, r);
        PairsConcat([m], ms, r.symbol);
        assert LotShares(lots)[fill..] == LotShares(lots[1..]);
        SoldSplit(LotShares(lots), r, fill, Least(remaining, |LotShares(lots)|));
      }
    }
  }

  lemma {:induction false} SaleMatchesOneSymbol(lots: seq<Lot>, remaining: nat, symbol: Symbol, price: real, ts: int)
    ensures forall m :: m in SellLots(lots, remaining, symbol, price, ts).1 ==> m.symbol == symbol
    decreases |lots|
  {
    if remaining > 0 && lots != [] {
      var fill := Least(remaining, lots[0].qty);
      if lots[0].qty <= fill { SaleMatchesOneSymbol(lots[1..], remaining - fill, symbol, price, ts); }
    }
  }

  lemma {:induction false} OtherSymbolsUnmatched(ms: seq<Match>, s: Symbol)
    requires forall m :: m in ms ==> m.symbol != s
    ensures PairsOf(ms, s) == []
  {
    if ms == [] {
    } else {
      assert ms[|ms| - 1] in ms;
      OtherSymbolsUnmatched(ms[..|ms| - 1], s);
    }
  }

  // ------------------------------------------------------------------ the theorem

  ghost predicate Refines(d: Desk, q: Queue, s: Symbol) {
    LotShares(LotsOf(d.lots, s)) == q.shares && PairsOf(d.matched, s) == q.pairs
  }

  lemma {:induction false} TermsAgree(r: Row)
    ensures TradePrice(r) == PriceOf(r) && Size(r) == Shares(r)
  {
  }

  lemma {:induction false} BuyRefines(d: Desk, q: Queue, r: Row, s: Symbol)
    requires Refines(d, q, s) && r.action == BUY && PriceOf(r) != 0.0 && Shares(r) != 0
    ensures Refines(Handle(d, r), if r.symbol == s then Trade(q, r) else q, s)
  {
    TermsAgree(r);
    LotSharesAppend(LotsOf(d.lots, r.symbol), Lot(Shares(r), PriceOf(r), r.timestamp));
  }

  lemma {:induction false} SaleRefines(d: Desk, q: Queue, r: Row, s: Symbol)
    requires Refines(d, q, s) && r.action == SELL && PriceOf(r) != 0.0 && Shares(r) != 0
    ensures Refines(Handle(d, r), if r.symbol == s then Trade(q, r) else q, s)
  {
    TermsAgree(r);
    var lots := LotsOf(d.lots, r.symbol);
    var ms := SellLots(lots, Shares(r), r.symbol, PriceOf(r), r.timestamp).1;
    SaleMatchesOneSymbol(lots, Shares(r), r.symbol, PriceOf(r), r.timestamp);
    PairsConcat(d.matched, ms, s);
    if r.symbol == s {
      SaleLeavesRest(lots, Shares(r), r.symbol, PriceOf(r), r.timestamp);
      SaleMatchesOldest(lots, Shares(r), r);
      SellSharesTakesOldest(q, r, Shares(r));
    } else {
      OtherSymbolsUnmatched(ms, s);
    }
  }

  /** Rows without a price or without shares change nothing on either side. */
  lemma {:induction false} IdleRefines(q: Queue, r: Row)
    requires PriceOf(r) == 0.0 || Shares(r) == 0 || r.action == OTHER
    ensures Trade(q, r) == q
  {
    TermsAgree(r);
    assert q.shares + [] == q.shares;
  }

  lemma {:induction false} HandleRefines(d: Desk, q: Queue, r: Row, s: Symbol)
    requires Refines(d, q, s)
    ensures Refines(Handle(d, r), if r.symbol == s then Trade(q, r) else q, s)
  {
    if PriceOf(r) == 0.0 || Shares(r) == 0 || r.action == OTHER {
      IdleRefines(q, r);
    } else if r.action == BUY {
      BuyRefines(d, q, r, s);
    } else {
      SaleRefines(d, q, r, s);
    }
  }

  /** For every symbol and any interleaving: the lots left and the matched rows, share by
      share, are exactly those of the one-share queue run on that symbol's rows alone. */
  lemma {:induction false} FifoRefinesQueue(rows: seq<Row>, s: Symbol)
    ensures Refines(MatchAll(rows), Run(Of(rows, s)), s)
  {
    if rows == [] {
    } else {
      var init, last := rows[..|rows| - 1], rows[|rows| - 1];
      FifoRefinesQueue(init, s);
      HandleRefines(MatchAll(init), Run(Of(init, s)), last, s);
      if last.symbol == s {
        assert (Of(init, s) + [last])[..|Of(init, s)|] == Of(init, s);
      } else {
        assert Of(init, s) + [] == Of(init, s);
      }
    }
  }

  /** The matched rows of one symbol, in order. */
  function MatchesOf(ms: seq<Match>, s: Symbol): seq<Match> {
    if ms == [] then []
    else
      var m := ms[|ms| - 1];
      if m.symbol == s then MatchesOf(ms[..|ms| - 1], s) + [m] else MatchesOf(ms[..|ms| - 1], s)
  }

  lemma {:induction false} MatchesConcat(a: seq<Match>, b: seq<Match>, s: Symbol)
    requires forall m :: m in b ==> (m.symbol == s <==> b[0].symbol == s)
    ensures MatchesOf(a + b, s)
         == if b != [] && b[0].symbol == s then MatchesOf(a, s) + b else MatchesOf(a, s)
  {
    if b == [] {
      assert a + b == a;
    } else {
      var init, last := b[..|b| - 1], b[|b| - 1];
      assert last in b && (a + b)[..|a + b| - 1] == a + init;
      assert init != [] ==> init[0] in b;
      MatchesConcat(a, init, s);
      if last.symbol == s { assert MatchesOf(a, s) + b == (MatchesOf(a, s) + init) + [last]; }
    }
  }

  /** The desk of all rows, seen from one symbol, is the desk of that symbol's rows. */
  ghost predicate SeenFrom(s: Symbol, d: Desk, own: Desk) {
    LotsOf(own.lots, s) == LotsOf(d.lots, s) && own.matched == MatchesOf(d.matched, s)
  }

  lemma {:induction false} HandleSeenFrom(s: Symbol, d: Desk, own: Desk, r: Row)
    requires SeenFrom(s, d, own)
    ensures SeenFrom(s, Handle(d, r), if r.symbol == s then Handle(own, r) else own)
  {
    if PriceOf(r) != 0.0 && Shares(r) != 0 && r.action == SELL {
      var lots := LotsOf(d.lots, r.symbol);
      SaleMatchesOneSymbol(lots, Shares(r), r.symbol, PriceOf(r), r.timestamp);
      var ms := SellLots(lots, Shares(r), r.symbol, PriceOf(r), r.timestamp).1;
      MatchesConcat(d.matched, ms, s);
      assert ms == [] ==> own.matched + ms == own.matched;
    }
  }

  /** However the rows of different symbols interleave, each symbol's matched rows, their
      entries, quantities and order, and its open lots are those of its own rows alone. */
  lemma {:induction false} InterleavingIrrelevant(rows: seq<Row>, s: Symbol)
    ensures MatchesOf(MatchAll(rows).matched, s) == MatchAll(Of(rows, s)).matched
    ensures LotsOf(MatchAll(rows).lots, s) == LotsOf(MatchAll(Of(rows, s)).lots, s)
  {
    if rows == [] {
    } else {
      var init, last := rows[..|rows| - 1], rows[|rows| - 1];
      InterleavingIrrelevant(init, s);
      HandleSeenFrom(s, MatchAll(init), MatchAll(Of(init, s)), last);
      if last.symbol == s {
        assert (Of(init, s) + [last])[..|Of(init, s)|] == Of(init, s);
      } else {
        assert Of(init, s) + [] == Of(init, s);
      }
    }
  }

  function Bought(rows: seq<Row>): nat {
    if rows == [] then 0
    else
      var r := rows[|rows| - 1];
      Bought(rows[..|rows| - 1]) + if r.action == BUY && TradePrice(r) != 0.0 then Size(r) else 0
  }

  function SoldTotal(rows: seq<Row>): nat {
    if rows == [] then 0
    else
      var r := rows[|rows| - 1];
      SoldTotal(rows[..|rows| - 1]) + if r.action == SELL && TradePrice(r) != 0.0 then Size(r) else 0
  }

  lemma {:induction false} QueueConserves(rows: seq<Row>)
    ensures Bought(rows) == |Run(rows).pairs| + |Run(rows).shares|
    ensures SoldTotal(rows) == |Run(rows).pairs| + Run(rows).dropped
  {
    if rows == [] {
    } else {
      var init, last := rows[..|rows| - 1], rows[|rows| - 1];
      QueueConserves(init);
      if last.action == SELL && PriceOf(last) != 0.0 {
        SellSharesTakesOldest(Run(init), last, Shares(last));
      }
    }
  }

  /** Conservation per symbol: bought = matched + left in lots, sold = matched + dropped. */
  lemma {:induction false} SharesConserved(rows: seq<Row>, s: Symbol)
    ensures var d := MatchAll(rows);
            && Bought(Of(rows, s)) == |PairsOf(d.matched, s)| + |LotShares(LotsOf(d.lots, s))|
            && SoldTotal(Of(rows, s)) == |PairsOf(d.matched, s)| + Run(Of(rows, s)).dropped
  {
    FifoRefinesQueue(rows, s);
    QueueConserves(Of(rows, s));
  }

  // ------------------------------------------------------------------ canonical or FIFO

  lemma {:induction false} WithoutExcludes(rows: seq<Row>, ids: set<string>, r: Row)
    ensures r in Without(rows, ids) <==> r in rows && r.id !in ids
  {
    if rows == [] {
    } else {
      WithoutExcludes(rows[..|rows| - 1], ids, r);
      assert rows == rows[..|rows| - 1] + [rows[|rows| - 1]];
    }
  }

  lemma {:induction false} CanonicalIdsCover(rows: seq<Row>, r: Row)
    requires r in rows && Canonical(r)
    ensures r.id in CanonicalIds(rows)
    ensures r.positionId != "" ==> r.positionId in CanonicalIds(rows)
  {
    var init, last := rows[..|rows| - 1], rows[|rows| - 1];
    if r != last {
      assert r in init by { assert rows == init + [last]; }
      CanonicalIdsCover(init, r);
    }
  }

  /** No id is scored by both paths: a row left for FIFO is not canonical, shares no id
      with a canonical row and is not the entry of one. */
  lemma {:induction false} NoDoubleScoring(rows: seq<Row>, c: Row, l: Row)
    requires c in CanonicalRows(rows) && l in Legacy(rows)
    ensures l.id != c.id && (c.positionId != "" ==> l.id != c.positionId) && !Canonical(l)
  {
    CanonicalRowsAre(rows, c);
    CanonicalIdsCover(rows, c);
    WithoutExcludes(rows, CanonicalIds(rows), l);
    if Canonical(l) { CanonicalIdsCover(rows, l); }
  }

  /** The row carries its own outcome: profit, entry price and exit price. */
  predicate HasOutcome(r: Row) { r.realizedPnl.Some? && r.entryPrice.Some? && r.exitPrice.Some? }

  lemma {:induction false} CanonicalRowsAre(rows: seq<Row>, c: Row)
    ensures c in CanonicalRows(rows) <==> c in rows && HasOutcome(c)
  {
    if rows == [] {
    } else {
      CanonicalRowsAre(rows[..|rows| - 1], c);
      assert rows == rows[..|rows| - 1] + [rows[|rows| - 1]];
    }
  }

  /** An id is taken when a row with an outcome has it, or names it as its position. */
  ghost predicate Taken(rows: seq<Row>, id: string) {
    exists c :: c in rows && HasOutcome(c) && (c.id == id || (c.positionId != "" && c.positionId == id))
  }

  lemma {:induction false} CanonicalIdsAre(rows: seq<Row>, id: string)
    ensures id in CanonicalIds(rows) <==> Taken(rows, id)
  {
    if rows == [] {
    } else {
      var init, last := rows[..|rows| - 1], rows[|rows| - 1];
      assert rows == init + [last];
      CanonicalIdsAre(init, id);
      if Taken(init, id) {
        var c :| c in init && HasOutcome(c) && (c.id == id || (c.positionId != "" && c.positionId == id));
        assert c in rows;
      }
      if Taken(rows, id) && !Taken(init, id) {
        var c :| c in rows && HasOutcome(c) && (c.id == id || (c.positionId != "" && c.positionId == id));
        assert c == last || c in init;
      }
      assert last in rows;
    }
  }

  /** Exactly the rows whose id is not taken are matched lot by lot: no row is left out. */
  lemma {:induction false} LegacyIff(rows: seq<Row>, l: Row)
    ensures l in Legacy(rows) <==> l in rows && !Taken(rows, l.id)
  {
    WithoutExcludes(rows, CanonicalIds(rows), l);
    CanonicalIdsAre(rows, l.id);
  }

  // ------------------------------------------------------------------ profit

  function PairPnl(p: Pair): real { p.exitPrice - p.entryPrice }

  function PairsPnl(ps: seq<Pair>): real {
    if ps == [] then 0.0 else PairPnl(ps[0]) + PairsPnl(ps[1..])
  }

  /** The profit of a matched row is the profit of its shares. */
  lemma {:induction false} MatchPnlIsPerShare(m: Match)
    ensures MatchPnl(m) == PairsPnl(MatchPairs(m))
    decreases m.qty
  {
    if m.qty > 0 {
      var less := m.(qty := m.qty - 1);
      MatchPnlIsPerShare(less);
      assert MatchPairs(m)[1..] == MatchPairs(less);
    } else {
      assert MatchPairs(m) == [];
    }
  }

  /** All matched shares, row by row. */
  function AllPairs(ms: seq<Match>): seq<Pair> {
    if ms == [] then [] else AllPairs(ms[..|ms| - 1]) + MatchPairs(ms[|ms| - 1])
  }

  lemma {:induction false} PairsPnlAdds(a: seq<Pair>, b: seq<Pair>)
    ensures PairsPnl(a + b) == PairsPnl(a) + PairsPnl(b)
  {
    if a == [] {
      assert a + b == b;
    } else {
      assert (a + b)[1..] == a[1..] + b;
      PairsPnlAdds(a[1..], b);
    }
  }

  /** The matched total is the profit of every matched share, sale price less entry price. */
  lemma {:induction false} TotalIsPerShare(ms: seq<Match>)
    ensures TotalOf(ms) == PairsPnl(AllPairs(ms))
  {
    if ms == [] {
    } else {
      var init, m := ms[..|ms| - 1], ms[|ms| - 1];
      TotalIsPerShare(init);
      MatchPnlIsPerShare(m);
      PairsPnlAdds(AllPairs(init), MatchPairs(m));
    }
  }

  /** Sum of the profits the rows carry. */
  function Outcomes(rows: seq<Row>): real {
    if rows == [] then 0.0
    else (if HasOutcome(rows[0]) then rows[0].realizedPnl.value else 0.0) + Outcomes(rows[1..])
  }

  lemma {:induction false} OutcomesLast(rows: seq<Row>, r: Row)
    ensures Outcomes(rows + [r]) == Outcomes(rows) + if HasOutcome(r) then r.realizedPnl.value else 0.0
  {
    if rows == [] {
      assert [r][1..] == [] && rows + [r] == [r];
    } else {
      assert (rows + [r])[1..] == rows[1..] + [r];
      OutcomesLast(rows[1..], r);
    }
  }

  /** The canonical total adds up the outcomes that rows carry. */
  lemma {:induction false} CanonicalTotalIs(rows: seq<Row>)
    ensures CanonicalTotal(rows) == Outcomes(rows)
  {
    if rows == [] {
    } else {
      var init, last := rows[..|rows| - 1], rows[|rows| - 1];
      CanonicalTotalIs(init);
      OutcomesLast(init, last);
      assert rows == init + [last];
    }
  }

  /** The whole figure: the outcomes carried by rows, plus the profit of every share matched
      among the rows that no outcome covers, oldest share first. */
  lemma {:induction false} RealizedIs(rows: seq<Row>)
    ensures var matched := MatchAll(SortByTime(Legacy(rows))).matched;
            CanonicalTotal(rows) + TotalOf(matched) == Outcomes(rows) + PairsPnl(AllPairs(matched))
  {
    CanonicalTotalIs(rows);
    TotalIsPerShare(MatchAll(SortByTime(Legacy(rows))).matched);
  }
}
