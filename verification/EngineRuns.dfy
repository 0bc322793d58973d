/** What a whole run of the engine decides on each of its dates, and the curve it records, in
    the terms of the rows, the settings and the states before and after the date. */
module EngineRuns {
  import opened Options
  import opened Events
  import opened MarketData
  import opened Ledger
  import opened EventLoop
  import opened Engine
  import opened EngineAccounting
  import opened EngineDecisions
  import opened Symbols

  // ------------------------------------------------------------------ the bars of a date

  /** The history has this row, and the row is of this date. */
  predicate RowOn(h: History, row: Row, date: int) { row in h.rows && row.date == date }

  lemma {:induction false} RowAtIs(rows: seq<Row>, date: int, row: Row)
    requires Increasing(DatesOf(rows))
    ensures RowAt(rows, date) == Some(row) <==> row in rows && row.date == date
  {
    if rows == [] {
    } else {
      var rest := rows[1..];
      assert DatesOf(rest) == DatesOf(rows)[1..];
      RowAtIs(rest, date, row);
      assert rows == [rows[0]] + rest;
      if row in rest && row.date == date {
        var i :| 0 <= i < |rest| && rest[i] == row;
        assert DatesOf(rows)[0] < DatesOf(rows)[i + 1];
      }
    }
  }

  /** One more history adds the event of its row of the date, if it has one. */
  lemma {:induction false} OneMoreHistory(bars: seq<History>, last: History, date: int, e: Event)
    requires Increasing(DatesOf(last.rows))
    ensures e in EventsAt(bars + [last], date)
       <==> e in EventsAt(bars, date) || exists row :: RowOn(last, row, date) && e == Market(date, last.symbol, row.close)
  {
    assert (bars + [last])[..|bars|] == bars;
    var at := RowAt(last.rows, date);
    if at.Some? { RowAtIs(last.rows, date, at.value); }
    if row :| RowOn(last, row, date) && e == Market(date, last.symbol, row.close) { RowAtIs(last.rows, date, row); }
  }

  /** A MARKET event is one of the date exactly when a history has a row of the date, with the
      close it carries. */
  lemma {:induction false} EventsAreRows(bars: seq<History>, date: int, e: Event)
    requires forall h :: h in bars ==> Increasing(DatesOf(h.rows))
    ensures e in EventsAt(bars, date)
       <==> exists h, row :: h in bars && RowOn(h, row, date) && e == Market(date, h.symbol, row.close)
  {
    if bars == [] {
    } else {
      var init, last := bars[..|bars| - 1], bars[|bars| - 1];
      assert bars == init + [last];
      EventsAreRows(init, date, e);
      OneMoreHistory(init, last, date, e);
    }
  }

  lemma {:induction false} RowsOfHistory(bars: seq<History>, h: History)
    requires DistinctHistories(bars) && h in bars
    ensures RowsOf(bars, h.symbol) == Some(h.rows)
  {
    if h != bars[0] {
      var i :| 0 <= i < |bars| && bars[i] == h;
      assert bars[1..][i - 1] == h;
      RowsOfHistory(bars[1..], h);
    }
  }

  /** Over distinct symbols the quote of a symbol is the close of its event. */
  lemma {:induction false} QuoteOfEvent(events: seq<Event>, k: nat)
    requires k < |events| && DistinctSymbols(events) && forall e :: e in events ==> e.Market?
    ensures var e := events[k];
            e.symbol in QuotesFrom(events) && QuotesFrom(events)[e.symbol] == Quote(e.timestamp, e.close)
  {
    var n := |events| - 1;
    assert events[n] in events;
    if k < n {
      assert events[..n][k] == events[k];
      QuoteOfEvent(events[..n], k);
    }
  }

  // ------------------------------------------------------------------ decisions of a date

  /** The rows the strategy is shown of a history on date k: the last 200 of its first k + 1. */
  function ShownOn(h: History, k: nat): seq<Row> {
    var end := if k + 1 < |h.rows| then k + 1 else |h.rows|;
    h.rows[if end > 200 then end - 200 else 0..end]
  }

  /** The frozen view of date k. */
  ghost function ViewOn(setup: Setup, f: Feed, k: nat): View
    requires k < |f.dates|
  {
    var s, events := After(setup, f, k), EventsAt(f.bars, f.dates[k]);
    View(f.bars, k + 1, s.quotes + QuotesFrom(events), s.equity)
  }

  lemma {:induction false} NextState(setup: Setup, f: Feed, k: nat)
    requires k < |f.dates| && EventsAt(f.bars, f.dates[k]) != []
    ensures var s, events := After(setup, f, k), EventsAt(f.bars, f.dates[k]);
            After(setup, f, k + 1).book == Drain(Handlers(setup, ViewOn(setup, f, k)), s.book, events).book
  {
  }

  lemma {:induction false} DateHasEvents(f: Feed, k: nat)
    requires Loaded(f) && k < |f.dates|
    ensures AllRank(EventsAt(f.bars, f.dates[k]), 0) && DistinctSymbols(EventsAt(f.bars, f.dates[k]))
  {
    var events := EventsAt(f.bars, f.dates[k]);
    EventsAtDistinct(f.bars, f.dates[k]);
    assert forall i :: 0 <= i < |events| ==> events[i] in events;
  }

  /** The event of a row. */
  lemma {:induction false} EventOfRow(f: Feed, k: nat, h: History, row: Row) returns (i: nat)
    requires Loaded(f) && k < |f.dates| && h in f.bars && RowOn(h, row, f.dates[k])
    ensures i < |EventsAt(f.bars, f.dates[k])|
    ensures EventsAt(f.bars, f.dates[k])[i] == Market(f.dates[k], h.symbol, row.close)
  {
    var events, e := EventsAt(f.bars, f.dates[k]), Market(f.dates[k], h.symbol, row.close);
    EventsAreRows(f.bars, f.dates[k], e);
    i :| 0 <= i < |events| && events[i] == e;
  }

  /** What a view shows of a symbol that has a row of its date. */
  ghost predicate Shows(v: View, h: History, k: nat, close: real) {
    && h.symbol in v.quotes && v.quotes[h.symbol].close == close
    && RowsShown(v, h.symbol) == Some(ShownOn(h, k))
  }

  lemma {:induction false} ViewShows(v: View, h: History, k: nat, before: map<Symbol, Quote>, events: seq<Event>, i: nat)
    requires v.index == k + 1 && DistinctHistories(v.bars) && h in v.bars
    requires i < |events| && DistinctSymbols(events) && forall e :: e in events ==> e.Market?
    requires events[i].symbol == h.symbol && v.quotes == before + QuotesFrom(events)
    ensures Shows(v, h, k, events[i].close)
  {
    QuoteOfEvent(events, i);
    RowsOfHistory(v.bars, h);
  }

  /** The bar of a date as `BarTurnsOver` wants it. */
  ghost predicate Ready(setup: Setup, f: Feed, k: nat)
    requires k < |f.dates|
  {
    && AllRank(EventsAt(f.bars, f.dates[k]), 0) && DistinctSymbols(EventsAt(f.bars, f.dates[k]))
    && DistinctHistories(f.bars) && OnePerSymbol(After(setup, f, k).book.holdings)
  }

  lemma {:induction false} DateIsReady(setup: Setup, f: Feed, k: nat)
    requires Loaded(f) && k < |f.dates|
    ensures Ready(setup, f, k)
  {
    DateHasEvents(f, k);
    RunInvariant(setup, f, k);
  }

  lemma {:induction false} DateTurns(setup: Setup, f: Feed, k: nat, i: nat)
    requires k < |f.dates| && i < |EventsAt(f.bars, f.dates[k])| && Ready(setup, f, k)
    requires EventsAt(f.bars, f.dates[k])[i].symbol in ViewOn(setup, f, k).quotes
    ensures var b, after, v := After(setup, f, k).book, After(setup, f, k + 1).book, ViewOn(setup, f, k);
            var symbol := EventsAt(f.bars, f.dates[k])[i].symbol;
            Owns(after, symbol) <==> (Owns(b, symbol) <==> !Trades(setup, v, b, symbol))
  {
    NextState(setup, f, k);
    BarTurnsOver(setup, ViewOn(setup, f, k), After(setup, f, k).book, EventsAt(f.bars, f.dates[k]), i);
  }

  /** What is held is sold exactly on the exit conditions; what is not held is bought exactly
      on the entry conditions, if its size is one share at least and covered by the cash. */
  ghost predicate Decided(setup: Setup, s: Sim, after: Sim, symbol: Symbol, shown: seq<Row>, close: real) {
    if Owns(s.book, symbol) then !Owns(after.book, symbol) <==> ExitHolds(setup.strategy, Some(shown))
    else
      var n := Sized(s.equity, setup.sizePct, close);
      Owns(after.book, symbol) <==>
        EntryHolds(setup.strategy, Some(shown)) && n >= 1 && n as real * close <= s.book.cash
  }

  lemma {:induction false} TradesOnRow(
      setup: Setup, v: View, s: Sim, after: Sim, h: History, k: nat, close: real)
    requires Shows(v, h, k, close) && v.equity == s.equity
    requires Owns(after.book, h.symbol) <==> (Owns(s.book, h.symbol) <==> !Trades(setup, v, s.book, h.symbol))
    ensures Decided(setup, s, after, h.symbol, ShownOn(h, k), close)
  {
  }

  lemma {:induction false} ViewOnShows(setup: Setup, f: Feed, k: nat, h: History, close: real, i: nat)
    requires k < |f.dates| && Ready(setup, f, k) && h in f.bars
    requires i < |EventsAt(f.bars, f.dates[k])|
    requires EventsAt(f.bars, f.dates[k])[i] == Market(f.dates[k], h.symbol, close)
    ensures Shows(ViewOn(setup, f, k), h, k, close) && ViewOn(setup, f, k).equity == After(setup, f, k).equity
  {
    ViewShows(ViewOn(setup, f, k), h, k, After(setup, f, k).quotes, EventsAt(f.bars, f.dates[k]), i);
  }

  lemma {:induction false} EventDecides(setup: Setup, f: Feed, k: nat, h: History, close: real, i: nat)
    requires k < |f.dates| && Ready(setup, f, k) && h in f.bars
    requires i < |EventsAt(f.bars, f.dates[k])|
    requires EventsAt(f.bars, f.dates[k])[i] == Market(f.dates[k], h.symbol, close)
    ensures Decided(setup, After(setup, f, k), After(setup, f, k + 1), h.symbol, ShownOn(h, k), close)
  {
    ViewOnShows(setup, f, k, h, close, i);
    DateTurns(setup, f, k, i);
    TradesOnRow(setup, ViewOn(setup, f, k), After(setup, f, k), After(setup, f, k + 1), h, k, close);
  }

  /** Every run, every date, every symbol with a row of that date: what is held is sold exactly
      when two rows are shown, exit conditions exist and hold of what is shown; what is not
      held is bought exactly when the entry conditions hold of it and the size, taken from the
      equity marked before the date, is one share at least and covered at the close of the
      date by the cash from before it. */
  lemma {:induction false} DateDecides(setup: Setup, f: Feed, k: nat, h: History, row: Row)
    requires Loaded(f) && k < |f.dates| && h in f.bars && RowOn(h, row, f.dates[k])
    ensures var s, after, shown := After(setup, f, k), After(setup, f, k + 1), ShownOn(h, k);
            var n := Sized(s.equity, setup.sizePct, row.close);
            && (Owns(s.book, h.symbol) ==>
                  (!Owns(after.book, h.symbol) <==> ExitHolds(setup.strategy, Some(shown))))
            && (!Owns(s.book, h.symbol) ==>
                  (Owns(after.book, h.symbol) <==>
                     EntryHolds(setup.strategy, Some(shown)) && n >= 1 && n as real * row.close <= s.book.cash))
  {
    RowDecides(setup, f, k, h, row);
  }

  lemma {:induction false} RowDecides(setup: Setup, f: Feed, k: nat, h: History, row: Row)
    requires Loaded(f) && k < |f.dates| && h in f.bars && RowOn(h, row, f.dates[k])
    ensures Decided(setup, After(setup, f, k), After(setup, f, k + 1), h.symbol, ShownOn(h, k), row.close)
  {
    var i := EventOfRow(f, k, h, row);
    DateIsReady(setup, f, k);
    EventDecides(setup, f, k, h, row.close, i);
  }

  /** A symbol without a row of the date is neither bought nor sold on it. */
  lemma {:induction false} SilentStays(setup: Setup, f: Feed, k: nat, symbol: Symbol)
    requires Loaded(f) && k < |f.dates|
    requires forall h, row :: h in f.bars && RowOn(h, row, f.dates[k]) ==> h.symbol != symbol
    ensures Owns(After(setup, f, k + 1).book, symbol) <==> Owns(After(setup, f, k).book, symbol)
  {
    var events := EventsAt(f.bars, f.dates[k]);
    if events != [] {
      forall m | m in events
        ensures m.symbol != symbol
      {
        EventsAreRows(f.bars, f.dates[k], m);
      }
      DateHasEvents(f, k);
      NextState(setup, f, k);
      RunInvariant(setup, f, k);
      OthersStay(setup, ViewOn(setup, f, k), After(setup, f, k).book, events, symbol);
    }
  }

  // ------------------------------------------------------------------ the curve

  /** The peak of point i is the highest of the initial capital and the equities up to it. */
  ghost predicate PeakOf(initial: real, curve: seq<Mark>, i: nat)
    requires i < |curve|
  {
    && initial <= curve[i].peak
    && (forall j :: 0 <= j <= i ==> curve[j].equity <= curve[i].peak)
    && (curve[i].peak == initial || exists j :: 0 <= j <= i && curve[j].equity == curve[i].peak)
  }

  lemma {:induction false} PeakExtends(initial: real, curve: seq<Mark>, m: Mark)
    requires curve != [] ==> PeakOf(initial, curve, |curve| - 1)
    requires var before := if curve == [] then initial else curve[|curve| - 1].peak;
             m.peak == if m.equity > before then m.equity else before
    ensures PeakOf(initial, curve + [m], |curve|)
  {
    var all := curve + [m];
    assert all[|curve|] == m;
    assert forall j :: 0 <= j < |curve| ==> all[j] == curve[j];
  }

  lemma {:induction false} PeakKept(initial: real, curve: seq<Mark>, m: Mark, i: nat)
    requires i < |curve| && PeakOf(initial, curve, i)
    ensures PeakOf(initial, curve + [m], i)
  {
    var all := curve + [m];
    assert forall j :: 0 <= j <= i ==> all[j] == curve[j];
  }

  lemma {:induction false} DateHasRow(f: Feed, k: nat)
    requires Loaded(f) && k < |f.dates|
    ensures EventsAt(f.bars, f.dates[k]) != []
  {
    var d := f.dates[k];
    assert d in f.dates;
    var h :| h in f.bars && d in DatesOf(h.rows);
    var i :| 0 <= i < |h.rows| && DatesOf(h.rows)[i] == d;
    assert RowOn(h, h.rows[i], d);
    var _ := EventOfRow(f, k, h, h.rows[i]);
  }

  lemma {:induction false} DateMarks(setup: Setup, f: Feed, k: nat)
    requires k < |f.dates| && EventsAt(f.bars, f.dates[k]) != []
    ensures var s, after := After(setup, f, k), After(setup, f, k + 1);
            && after.peak == (if after.equity > s.peak then after.equity else s.peak)
            && after.curve == s.curve + [Mark(f.dates[k], after.equity, after.peak)]
  {
    var events := EventsAt(f.bars, f.dates[k]);
    assert events[0] in events;
  }

  /** What point i of a curve of the run says. */
  ghost predicate Point(setup: Setup, f: Feed, curve: seq<Mark>, i: nat)
    requires i < |curve| <= |f.dates|
  {
    && curve[i].time == f.dates[i] && curve[i].equity == After(setup, f, i + 1).equity
    && PeakOf(setup.initial, curve, i)
  }

  lemma {:induction false} CurveStep(setup: Setup, f: Feed, curve: seq<Mark>, m: Mark, n: nat)
    requires |curve| == n < |f.dates| && forall i :: 0 <= i < n ==> Point(setup, f, curve, i)
    requires m.time == f.dates[n] && m.equity == After(setup, f, n + 1).equity
    requires var before := if n == 0 then setup.initial else curve[n - 1].peak;
             m.peak == if m.equity > before then m.equity else before
    ensures forall i :: 0 <= i <= n ==> Point(setup, f, curve + [m], i)
  {
    forall i | 0 <= i <= n
      ensures Point(setup, f, curve + [m], i)
    {
      if i < n {
        assert Point(setup, f, curve, i);
        PeakKept(setup.initial, curve, m, i);
      } else {
        if n > 0 { assert Point(setup, f, curve, n - 1); }
        PeakExtends(setup.initial, curve, m);
      }
    }
  }

  /** One point of each date so far; the last one holds the peak. */
  ghost predicate CurveIs(setup: Setup, f: Feed, k: nat)
    requires k <= |f.dates|
  {
    var s := After(setup, f, k);
    && |s.curve| == k && s.peak == (if k == 0 then setup.initial else s.curve[k - 1].peak)
    && forall i :: 0 <= i < k ==> Point(setup, f, s.curve, i)
  }

  lemma {:induction false} CurveLonger(setup: Setup, f: Feed, k: nat)
    requires k < |f.dates| && EventsAt(f.bars, f.dates[k]) != [] && CurveIs(setup, f, k)
    ensures CurveIs(setup, f, k + 1)
  {
    DateMarks(setup, f, k);
    CurveStep(setup, f, After(setup, f, k).curve, After(setup, f, k + 1).curve[k], k);
  }

  lemma {:induction false} CurveStart(setup: Setup, f: Feed)
    ensures CurveIs(setup, f, 0)
  {
  }

  lemma {:induction false} Ascends(holds: nat -> bool, n: nat)
    requires holds(0) && forall k: nat :: k < n && holds(k) ==> holds(k + 1)
    ensures holds(n)
  {
    if n > 0 { Ascends(holds, n - 1); }
  }

  lemma {:induction false} CurveGrows(setup: Setup, f: Feed, n: nat)
    requires Loaded(f) && n <= |f.dates|
    ensures CurveIs(setup, f, n)
  {
    var holds := (k: nat) => k <= |f.dates| && CurveIs(setup, f, k);
    forall k: nat | k < n && holds(k)
      ensures holds(k + 1)
    {
      DateHasRow(f, k);
      CurveLonger(setup, f, k);
    }
    CurveStart(setup, f);
    Ascends(holds, n);
  }

  /** Every run has one point of each date so far, with the equity marked on that date and the
      peak of the run up to it. */
  lemma {:induction false} CurveOfRun(setup: Setup, f: Feed, k: nat, i: nat)
    requires Loaded(f) && i < k <= |f.dates|
    ensures var curve := After(setup, f, k).curve;
            && |curve| == k && curve[i].time == f.dates[i] && curve[i].equity == After(setup, f, i + 1).equity
            && PeakOf(setup.initial, curve, i)
  {
    CurveGrows(setup, f, k);
    assert Point(setup, f, After(setup, f, k).curve, i);
  }
}
