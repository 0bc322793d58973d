/** Symbol reference counts of the market-data WebSocket: `ws_market_data` and its helpers
    in `backend/main.py`. */
module RefCounts {
  import opened Symbols

  type Connection = nat

  /** How many subscribers a symbol is credited with. */
  function Credit(counts: map<Symbol, nat>, s: Symbol): nat { if s in counts then counts[s] else 0 }

  function AddRefs(counts: map<Symbol, nat>, symbols: seq<Symbol>): map<Symbol, nat>
    decreases |symbols|
  {
    if symbols == [] then counts
    else
      var before, s := AddRefs(counts, symbols[..|symbols| - 1]), symbols[|symbols| - 1];
      if s == Ticker("") then before else before[s := Credit(before, s) + 1]
  }

  function RemoveRefs(counts: map<Symbol, nat>, symbols: seq<Symbol>): map<Symbol, nat>
    decreases |symbols|
  {
    if symbols == [] then counts
    else
      var before, s := RemoveRefs(counts, symbols[..|symbols| - 1]), symbols[|symbols| - 1];
      if s == Ticker("") then before
      else if Credit(before, s) <= 1 then before - {s}
      else before[s := Credit(before, s) - 1]
  }

  /** The symbols of a subscribe message that the connection does not have yet. */
  function Fresh(subscribed: set<Symbol>, symbols: seq<Symbol>): (r: seq<Symbol>)
    ensures forall s :: s in r <==> s in symbols && s != Ticker("") && s !in subscribed
    decreases |symbols|
  {
    if symbols == [] then []
    else
      var s := symbols[|symbols| - 1];
      Fresh(subscribed, symbols[..|symbols| - 1]) + if s != Ticker("") && s !in subscribed then [s] else []
  }

  /** The symbols of an unsubscribe message that the connection has. */
  function Held(subscribed: set<Symbol>, symbols: seq<Symbol>): (r: seq<Symbol>)
    ensures forall s :: s in r <==> s in symbols && s in subscribed
    decreases |symbols|
  {
    if symbols == [] then []
    else
      var s := symbols[|symbols| - 1];
      Held(subscribed, symbols[..|symbols| - 1]) + if s in subscribed then [s] else []
  }

  function Members(symbols: seq<Symbol>): set<Symbol> { set s | s in symbols }

  /** The reference counts, what each open connection is subscribed to, and what is
      subscribed at the data source. */
  datatype State = State(counts: map<Symbol, nat>, open: map<Connection, set<Symbol>>, upstream: set<Symbol>)

  /** `_ws_sync_ibkr_subscriptions`: `connected` and `accepts` are the source's answers. */
  function Synced(st: State, connected: bool, accepts: set<Symbol>): State {
    if !connected then st.(upstream := {})
    else st.(upstream := st.upstream + (set s | s in st.counts && st.counts[s] > 0 && s in accepts))
  }

  /** The listed symbols that have no count left. */
  function RunOut(counts: map<Symbol, nat>, symbols: seq<Symbol>): set<Symbol> {
    set s | s in symbols && s != Ticker("") && s !in counts
  }

  lemma {:induction false} RunOutSkips(counts: map<Symbol, nat>, xs: seq<Symbol>)
    ensures RunOut(counts, xs + [Ticker("")]) == RunOut(counts, xs)
  {
  }

  lemma {:induction false} RunOutDrops(counts: map<Symbol, nat>, xs: seq<Symbol>, s: Symbol)
    requires s != Ticker("")
    ensures RunOut(counts - {s}, xs + [s]) == RunOut(counts, xs) + {s}
  {
    assert s in xs + [s];
  }

  lemma {:induction false} RunOutKeeps(counts: map<Symbol, nat>, xs: seq<Symbol>, s: Symbol, n: nat)
    requires s in counts
    ensures RunOut(counts[s := n], xs + [s]) == RunOut(counts, xs)
  {
  }

  lemma {:induction false} RemoveRefsLast(counts: map<Symbol, nat>, xs: seq<Symbol>, s: Symbol)
    ensures var before := RemoveRefs(counts, xs);
            RemoveRefs(counts, xs + [s]) ==
              if s == Ticker("") then before
              else if Credit(before, s) <= 1 then before - {s}
              else before[s := Credit(before, s) - 1]
  {
    assert (xs + [s])[..|xs|] == xs;
  }

  /** `_ws_remove_symbol_refs`: a symbol whose count runs out is dropped upstream too. */
  function Released(st: State, symbols: seq<Symbol>): State {
    var counts := RemoveRefs(st.counts, symbols);
    State(counts, st.open, st.upstream - RunOut(counts, symbols))
  }

  function Connected(st: State, c: Connection): State { st.(open := st.open[c := {}]) }

  function Subscribed(st: State, c: Connection, symbols: seq<Symbol>, connected: bool, accepts: set<Symbol>): State
    requires c in st.open
  {
    var added := Fresh(st.open[c], symbols);
    if added == [] then st
    else Synced(State(AddRefs(st.counts, added), st.open[c := st.open[c] + Members(added)], st.upstream), connected, accepts)
  }

  function Unsubscribed(st: State, c: Connection, symbols: seq<Symbol>): State
    requires c in st.open
  {
    var removed := Held(st.open[c], symbols);
    if removed == [] then st
    else Released(st.(open := st.open[c := st.open[c] - Members(removed)]), removed)
  }

  /** The end of a connection. `order` lists its symbols in the order of the set. */
  function Disconnected(st: State, c: Connection, order: seq<Symbol>): State
    requires c in st.open
  {
    var st1 := st.(open := st.open - {c});
    if st.open[c] == {} then st1 else Released(st1, order)
  }

  class MarketDataHub {
    var refCounts: map<Symbol, nat>
    var open: map<Connection, set<Symbol>>
    var upstream: set<Symbol>

    ghost function Now(): State
      reads this
    {
      State(refCounts, open, upstream)
    }

    constructor ()
      ensures Now() == State(map[], map[], {})
    {
      refCounts, open, upstream := map[], map[], {};
    }

    method SyncUpstream(connected: bool, accepts: set<Symbol>)
      modifies this`upstream
      ensures Now() == Synced(old(Now()), connected, accepts)
    {
      if !connected {
        upstream := {};
        return;
      }
      upstream := upstream + (set s | s in refCounts && refCounts[s] > 0 && s in accepts);
    }

    method AddSymbolRefs(symbols: seq<Symbol>, connected: bool, accepts: set<Symbol>)
      modifies this`refCounts, this`upstream
      ensures Now() == Synced(State(AddRefs(old(refCounts), symbols), open, old(upstream)), connected, accepts)
    {
      for i := 0 to |symbols|
        invariant refCounts == AddRefs(old(refCounts), symbols[..i]) && upstream == old(upstream)
      {
        assert symbols[..i + 1][..i] == symbols[..i];
        var s := symbols[i];
        if s == Ticker("") { continue; }
        var prev := Credit(refCounts, s);
        refCounts := refCounts[s := prev + 1];
      }
      assert symbols[..|symbols|] == symbols;
      SyncUpstream(connected, accepts);
    }

    method RemoveSymbolRefs(symbols: seq<Symbol>)
      modifies this`refCounts, this`upstream
      ensures Now() == Released(old(Now()), symbols)
    {
      for i := 0 to |symbols|
        invariant refCounts == RemoveRefs(old(refCounts), symbols[..i])
        invariant upstream == old(upstream) - RunOut(refCounts, symbols[..i])
      {
        var s := symbols[i];
        assert symbols[..i + 1] == symbols[..i] + [s];
        RemoveRefsLast(old(refCounts), symbols[..i], s);
        if s == Ticker("") {
          RunOutSkips(refCounts, symbols[..i]);
          continue;
        }
        var prev := Credit(refCounts, s);
        if prev <= 1 {
          RunOutDrops(refCounts, symbols[..i], s);
          refCounts := refCounts - {s};
          upstream := upstream - {s};
        } else {
          RunOutKeeps(refCounts, symbols[..i], s, prev - 1);
          refCounts := refCounts[s := prev - 1];
        }
      }
      assert symbols[..|symbols|] == symbols;
    }

    method Connect(c: Connection)
      requires c !in open
      modifies this`open
      ensures Now() == Connected(old(Now()), c)
    {
      open := open[c := {}];
    }

    method Subscribe(c: Connection, symbols: seq<Symbol>, connected: bool, accepts: set<Symbol>)
      requires c in open
      modifies this
      ensures Now() == Subscribed(old(Now()), c, symbols, connected, accepts)
    {
      var added := Fresh(open[c], symbols);
      if added != [] {
        open := open[c := open[c] + Members(added)];
        AddSymbolRefs(added, connected, accepts);
      }
    }

    method Unsubscribe(c: Connection, symbols: seq<Symbol>)
      requires c in open
      modifies this
      ensures Now() == Unsubscribed(old(Now()), c, symbols)
    {
      var removed := Held(open[c], symbols);
      if removed != [] {
        var left := open[c];
        for i := 0 to |removed|
          invariant left == open[c] - Members(removed[..i])
          invariant Now() == old(Now())
        {
          assert removed[..i + 1] == removed[..i] + [removed[i]];
          left := left - {removed[i]};
        }
        assert removed[..|removed|] == removed;
        open := open[c := left];
        RemoveSymbolRefs(removed);
      }
    }

    method Disconnect(c: Connection, order: seq<Symbol>)
      requires c in open && Members(order) == open[c]
      modifies this
      ensures Now() == Disconnected(old(Now()), c, order)
    {
      var subscribed := open[c];
      open := open - {c};
      if subscribed != {} { RemoveSymbolRefs(order); }
    }
  }
}
