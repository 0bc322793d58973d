/** The bar stream of `backend/data_handler.py` and what it lets a strategy see. */
module MarketData {
  import opened Money
  import opened Options
  import opened Events
  import opened Symbols

  datatype Row = Row(date: int, open: real, high: real, low: real, close: real)

  /** One symbol's rows, in the order of `_bars`. */
  datatype History = History(symbol: Symbol, rows: seq<Row>)

  /** Loaded data: merged dates and the per-symbol histories. */
  datatype Feed = Feed(dates: seq<int>, bars: seq<History>)

  predicate Increasing(s: seq<int>) { forall i, j :: 0 <= i < j < |s| ==> s[i] < s[j] }

  function DatesOf(rows: seq<Row>): seq<int> { seq(|rows|, i requires 0 <= i < |rows| => rows[i].date) }

  /** What loading produces: sorted merged dates, one history per symbol, each sorted. */
  ghost predicate Loaded(f: Feed) {
    && Increasing(f.dates)
    && (forall h :: h in f.bars ==> Increasing(DatesOf(h.rows)))
    && (forall i, j :: 0 <= i < j < |f.bars| ==> f.bars[i].symbol != f.bars[j].symbol)
    && (forall d :: d in f.dates <==> exists h :: h in f.bars && d in DatesOf(h.rows))
  }

  function RowsOf(bars: seq<History>, symbol: Symbol): Option<seq<Row>> {
    if bars == [] then None
    else if bars[0].symbol == symbol then Some(bars[0].rows)
    else RowsOf(bars[1..], symbol)
  }

  function RowAt(rows: seq<Row>, date: int): Option<Row> {
    if rows == [] then None
    else if rows[0].date == date then Some(rows[0])
    else RowAt(rows[1..], date)
  }

  /** The MARKET events of one date, in history order. */
  function EventsAt(bars: seq<History>, date: int): (events: seq<Event>)
    ensures forall e :: e in events ==> e.Market? && e.timestamp == date
  {
    if bars == [] then []
    else
      var init, last := bars[..|bars| - 1], bars[|bars| - 1];
      EventsAt(init, date) +
      match RowAt(last.rows, date)
      case None => []
      case Some(row) => [Market(date, last.symbol, row.close)]
  }

  function LastN<T>(s: seq<T>, n: nat): seq<T> { if |s| <= n then s else s[|s| - n..] }

  /** `get_bars`: the window ends at the row whose position is the bar index. */
  function Window(bars: seq<History>, index: nat, symbol: Symbol, n: nat): Option<seq<Row>> {
    match RowsOf(bars, symbol)
    case None => None
    case Some(rows) => Some(LastN(rows[..Least(index, |rows|)], n))
  }

  class DataHandler {
    const feed: Feed
    var barIndex: nat
    var continueBacktest: bool

    constructor (feed: Feed)
      ensures this.feed == feed && barIndex == 0 && (continueBacktest <==> feed.dates != [])
    {
      this.feed := feed;
      barIndex := 0;
      continueBacktest := feed.dates != [];
    }

    method NextBars() returns (events: seq<Event>)
      modifies this
      ensures old(barIndex) >= |feed.dates| ==> events == [] && !continueBacktest && barIndex == old(barIndex)
      ensures old(barIndex) < |feed.dates| ==>
                && events == EventsAt(feed.bars, feed.dates[old(barIndex)])
                && barIndex == old(barIndex) + 1 && continueBacktest == old(continueBacktest)
    {
      if barIndex >= |feed.dates| {
        continueBacktest := false;
        return [];
      }
      var date := feed.dates[barIndex];
      barIndex := barIndex + 1;
      events := [];
      for i := 0 to |feed.bars|
        invariant events == EventsAt(feed.bars[..i], date)
      {
        var h := feed.bars[i];
        assert feed.bars[..i + 1][..i] == feed.bars[..i];
        var row := RowAt(h.rows, date);
        if row.Some? {
          events := events + [Market(date, h.symbol, row.value.close)];
        }
      }
      assert feed.bars[..|feed.bars|] == feed.bars;
    }

    method GetBars(symbol: Symbol, n: nat) returns (window: Option<seq<Row>>)
      ensures window == Window(feed.bars, barIndex, symbol, n)
    {
      var rows := RowsOf(feed.bars, symbol);
      if rows.None? { return None; }
      var end := Least(barIndex, |rows.value|);
      var start := if end <= n then 0 else end - n;
      window := Some(rows.value[start..end]);
      assert rows.value[start..end] == LastN(rows.value[..end], n);
    }
  }

  // ------------------------------------------------------------------ look-ahead

  /** How many rows are dated at or before `date`. */
  function ReleasedCount(rows: seq<Row>, date: int): (c: nat)
    ensures c <= |rows|
  {
    if rows == [] || rows[0].date > date then 0 else 1 + ReleasedCount(rows[1..], date)
  }

  lemma {:induction false} ReleasedIsPrefix(rows: seq<Row>, date: int)
    requires Increasing(DatesOf(rows))
    ensures forall i :: 0 <= i < |rows| ==> (rows[i].date <= date <==> i < ReleasedCount(rows, date))
  {
    if rows == [] {
    } else {
      assert DatesOf(rows)[0] == rows[0].date;
      assert forall i :: 0 <= i < |rows| ==> DatesOf(rows)[i] == rows[i].date;
      if rows[0].date <= date {
        assert DatesOf(rows[1..]) == DatesOf(rows)[1..];
        ReleasedIsPrefix(rows[1..], date);
        forall i | 0 <= i < |rows|
          ensures rows[i].date <= date <==> i < ReleasedCount(rows, date)
        {
          if i > 0 { assert rows[i] == rows[1..][i - 1]; }
        }
      }
    }
  }

  /** What an honest window shows on `date`: the last n rows dated at or before it. */
  function Honest(rows: seq<Row>, date: int, n: nat): seq<Row> {
    LastN(rows[..ReleasedCount(rows, date)], n)
  }

  /** The symbol has a row on each date so far, or all its rows are already out. */
  predicate CaughtUp(rows: seq<Row>, index: nat, date: int) {
    ReleasedCount(rows, date) == index || (ReleasedCount(rows, date) == |rows| && |rows| <= index)
  }

  /** Every history, every index: the positional window is the honest one exactly when
      the symbol is caught up. */
  lemma {:induction false} WindowHonestIff(bars: seq<History>, index: nat, symbol: Symbol, n: nat, date: int)
    requires RowsOf(bars, symbol).Some? && Increasing(DatesOf(RowsOf(bars, symbol).value))
    requires n >= 1
    ensures var rows := RowsOf(bars, symbol).value;
            Window(bars, index, symbol, n).value == Honest(rows, date, n) <==> CaughtUp(rows, index, date)
  {
    var rows := RowsOf(bars, symbol).value;
    var e, c := Least(index, |rows|), ReleasedCount(rows, date);
    assert forall i :: 0 <= i < |rows| ==> DatesOf(rows)[i] == rows[i].date;
    if e != c {
      DifferentEnds(rows, e, c, n);
    }
  }

  /** Windows of distinct rows that end at different places differ. */
  lemma {:induction false} DifferentEnds(rows: seq<Row>, e: nat, c: nat, n: nat)
    requires e <= |rows| && c <= |rows| && e != c && n >= 1
    requires forall i, j :: 0 <= i < j < |rows| ==> rows[i] != rows[j]
    ensures LastN(rows[..e], n) != LastN(rows[..c], n)
  {
    var s, t := LastN(rows[..e], n), LastN(rows[..c], n);
    if e > 0 && c > 0 {
      assert s[|s| - 1] == rows[e - 1] && t[|t| - 1] == rows[c - 1];
    }
  }

  /** When the symbol is not caught up because rows are missing, the window shows a row
      from the future. */
  lemma {:induction false} LaggingWindowLooksAhead(bars: seq<History>, index: nat, symbol: Symbol, n: nat, date: int)
    requires RowsOf(bars, symbol).Some? && Increasing(DatesOf(RowsOf(bars, symbol).value))
    requires n >= 1
    ensures var rows := RowsOf(bars, symbol).value;
            (exists r :: r in Window(bars, index, symbol, n).value && r.date > date)
            <==> ReleasedCount(rows, date) < Least(index, |rows|)
  {
    var rows := RowsOf(bars, symbol).value;
    var e, c := Least(index, |rows|), ReleasedCount(rows, date);
    ReleasedIsPrefix(rows, date);
    var shown := Window(bars, index, symbol, n).value;
    if c < e {
      assert shown[|shown| - 1] == rows[e - 1];
      assert rows[e - 1] in shown;
    } else {
      forall r | r in shown
        ensures r.date <= date
      {
        assert r in rows[..e];
        var i :| 0 <= i < e && rows[i] == r;
      }
    }
  }

  /** Two increasing sequences with the same members are the same sequence. */
  lemma {:induction false} SameMembersSameSequence(a: seq<int>, b: seq<int>)
    requires Increasing(a) && Increasing(b)
    requires forall x :: x in a <==> x in b
    ensures a == b
    decreases |a|
  {
    if a != [] { assert a[0] in a; assert a[0] in b; }
    if b != [] { assert b[0] in b; assert b[0] in a; }
    if a == [] {
    } else {
      var i :| 0 <= i < |b| && b[i] == a[0];
      var j :| 0 <= j < |a| && a[j] == b[0];
      assert a[0] == b[0];
      forall x
        ensures x in a[1..] <==> x in b[1..]
      {
        TailMembers(a, x);
        TailMembers(b, x);
      }
      SameMembersSameSequence(a[1..], b[1..]);
      assert a == [a[0]] + a[1..] && b == [b[0]] + b[1..];
    }
  }

  lemma {:induction false} TailMembers(a: seq<int>, x: int)
    requires Increasing(a) && a != []
    ensures x in a[1..] <==> x in a && x != a[0]
  {
    if x in a && x != a[0] {
      var i :| 0 <= i < |a| && a[i] == x;
      assert a[1..][i - 1] == x;
    }
    if x in a[1..] {
      var i :| 0 <= i < |a[1..]| && a[1..][i] == x;
      assert a[i + 1] == x;
    }
  }

  /** A symbol with a bar on every merged date is caught up on every date. */
  lemma {:induction false} FullHistoryIsCaughtUp(f: Feed, h: History, index: nat)
    requires Loaded(f) && h in f.bars
    requires forall d :: d in f.dates ==> d in DatesOf(h.rows)
    requires 0 < index <= |f.dates|
    ensures DatesOf(h.rows) == f.dates
    ensures CaughtUp(h.rows, index, f.dates[index - 1])
  {
    SameMembersSameSequence(DatesOf(h.rows), f.dates);
    ReleasedIsPrefix(h.rows, f.dates[index - 1]);
    assert forall i :: 0 <= i < |h.rows| ==> DatesOf(h.rows)[i] == h.rows[i].date;
    var c := ReleasedCount(h.rows, f.dates[index - 1]);
    assert h.rows[index - 1].date <= f.dates[index - 1];
    if index < |h.rows| { assert h.rows[index].date > f.dates[index - 1]; }
  }

  /** A gap breaks the promise: on date 2 the second symbol already shows its bar of date 3. */
  lemma {:induction false} GapLooksAhead()
    ensures exists f: Feed, symbol: Symbol, index: nat ::
              && Loaded(f) && 0 < index <= |f.dates| && RowsOf(f.bars, symbol).Some?
              && exists r :: r in Window(f.bars, index, symbol, 200).value && r.date > f.dates[index - 1]
  {
    var a := History(Ticker("A"), [Row(1, 1.0, 1.0, 1.0, 1.0), Row(2, 1.0, 1.0, 1.0, 1.0), Row(3, 1.0, 1.0, 1.0, 1.0)]);
    var b := History(Ticker("B"), [Row(1, 1.0, 1.0, 1.0, 1.0), Row(3, 1.0, 1.0, 1.0, 1.0)]);
    var f := Feed([1, 2, 3], [a, b]);
    assert DatesOf(a.rows) == [1, 2, 3];
    assert DatesOf(b.rows) == [1, 3];
    assert a in f.bars && b in f.bars;
    assert Loaded(f);
    assert RowsOf(f.bars, Ticker("B")) == Some(b.rows);
    assert b.rows[..2] == b.rows && b.rows[1].date == 3;
    assert Window(f.bars, 2, Ticker("B"), 200) == Some(b.rows);
    assert b.rows[1] in Window(f.bars, 2, Ticker("B"), 200).value;
  }
}
