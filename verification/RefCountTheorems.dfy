/** When the reference counts count connections. */
module RefCountTheorems {
  import opened Symbols
  import opened RefCounts

  ghost predicate Positive(counts: map<Symbol, nat>) { forall s :: s in counts ==> counts[s] >= 1 }

  function Holders(open: map<Connection, set<Symbol>>, s: Symbol): set<Connection> {
    set c | c in open && s in open[c]
  }

  /** Every count is the number of connections subscribed to the symbol, and zero counts
      are not kept. */
  ghost predicate Exact(st: State) {
    && Positive(st.counts)
    && (forall c :: c in st.open ==> Ticker("") !in st.open[c])
    && forall s :: Credit(st.counts, s) == |Holders(st.open, s)|
  }

  /** Nothing is subscribed upstream without a count. */
  ghost predicate Backed(st: State) { forall s :: s in st.upstream ==> s in st.counts }

  ghost predicate NoRepeats(symbols: seq<Symbol>) { forall s :: multiset(symbols)[s] <= 1 }

  // ------------------------------------------------------------------ the two loops

  lemma {:induction false} AddRefsCredit(counts: map<Symbol, nat>, xs: seq<Symbol>, s: Symbol)
    requires Positive(counts) && Ticker("") !in xs
    ensures Positive(AddRefs(counts, xs))
    ensures Credit(AddRefs(counts, xs), s) == Credit(counts, s) + multiset(xs)[s]
    decreases |xs|
  {
    if xs == [] {
    } else {
      var init, x := xs[..|xs| - 1], xs[|xs| - 1];
      assert xs == init + [x];
      AddRefsCredit(counts, init, s);
      AddRefsCredit(counts, init, x);
    }
  }

  lemma {:induction false} RemoveRefsCredit(counts: map<Symbol, nat>, xs: seq<Symbol>, s: Symbol)
    requires Positive(counts) && Ticker("") !in xs
    ensures Positive(RemoveRefs(counts, xs))
    ensures Credit(RemoveRefs(counts, xs), s)
         == if Credit(counts, s) <= multiset(xs)[s] then 0 else Credit(counts, s) - multiset(xs)[s]
    decreases |xs|
  {
    if xs == [] {
    } else {
      var init, x := xs[..|xs| - 1], xs[|xs| - 1];
      assert xs == init + [x];
      RemoveRefsCredit(counts, init, s);
      RemoveRefsCredit(counts, init, x);
    }
  }

  lemma {:induction false} OneMore(init: seq<Symbol>, x: Symbol, s: Symbol)
    ensures multiset(init + [x])[s] == multiset(init)[s] + if x == s then 1 else 0
  {
  }

  // ------------------------------------------------------------------ holders

  lemma {:induction false} HoldersJoin(open: map<Connection, set<Symbol>>, c: Connection, more: set<Symbol>, s: Symbol)
    requires c in open && forall x :: x in more ==> x !in open[c]
    ensures |Holders(open[c := open[c] + more], s)| == |Holders(open, s)| + if s in more then 1 else 0
  {
    var after := Holders(open[c := open[c] + more], s);
    if s in more {
      assert after == Holders(open, s) + {c};
    } else {
      assert after == Holders(open, s);
    }
  }

  lemma {:induction false} HoldersLeave(open: map<Connection, set<Symbol>>, c: Connection, less: set<Symbol>, s: Symbol)
    requires c in open && less <= open[c]
    ensures |Holders(open[c := open[c] - less], s)| == |Holders(open, s)| - if s in less then 1 else 0
  {
    var after := Holders(open[c := open[c] - less], s);
    if s in less {
      assert after == Holders(open, s) - {c};
    } else {
      assert after == Holders(open, s);
    }
  }

  lemma {:induction false} HoldersClose(open: map<Connection, set<Symbol>>, c: Connection, s: Symbol)
    requires c in open
    ensures |Holders(open - {c}, s)| == |Holders(open, s)| - if s in open[c] then 1 else 0
  {
    var after := Holders(open - {c}, s);
    if s in open[c] {
      assert after == Holders(open, s) - {c};
    } else {
      assert after == Holders(open, s);
    }
  }

  lemma {:induction false} InMembers(xs: seq<Symbol>, s: Symbol)
    ensures s in Members(xs) <==> multiset(xs)[s] >= 1
  {
    assert s in xs <==> s in multiset(xs);
  }

  // ------------------------------------------------------------------ one message

  ghost predicate CreditJoined(st: State, added: seq<Symbol>, after: State, s: Symbol) {
    var n, k := |Holders(st.open, s)|, multiset(added)[s];
    && Positive(after.counts)
    && Credit(after.counts, s) == n + k
    && |Holders(after.open, s)| == (if k >= 1 then n + 1 else n)
  }

  lemma {:induction false} CreditsAfterSubscribe(
      st: State, c: Connection, symbols: seq<Symbol>, connected: bool, accepts: set<Symbol>, s: Symbol)
    requires Exact(st) && c in st.open && Fresh(st.open[c], symbols) != []
    ensures CreditJoined(st, Fresh(st.open[c], symbols), Subscribed(st, c, symbols, connected, accepts), s)
  {
    var added := Fresh(st.open[c], symbols);
    AddRefsCredit(st.counts, added, s);
    HoldersJoin(st.open, c, Members(added), s);
    InMembers(added, s);
  }

  /** A subscribe message keeps the counts exact exactly when the symbols new to the
      connection are listed once each. */
  lemma {:induction false} SubscribeKeepsIff(
      st: State, c: Connection, symbols: seq<Symbol>, connected: bool, accepts: set<Symbol>)
    requires Exact(st) && c in st.open
    ensures Exact(Subscribed(st, c, symbols, connected, accepts)) <==> NoRepeats(Fresh(st.open[c], symbols))
  {
    var added := Fresh(st.open[c], symbols);
    if added != [] {
      var after := Subscribed(st, c, symbols, connected, accepts);
      forall s ensures CreditJoined(st, added, after, s) { CreditsAfterSubscribe(st, c, symbols, connected, accepts, s); }
      assert CreditJoined(st, added, after, Ticker(""));
      if Exact(after) {
        forall s ensures multiset(added)[s] <= 1 {
          assert CreditJoined(st, added, after, s);
          assert Credit(after.counts, s) == |Holders(after.open, s)|;
        }
      }
      if NoRepeats(added) {
        forall s ensures Credit(after.counts, s) == |Holders(after.open, s)| {
          assert CreditJoined(st, added, after, s);
        }
      }
    }
  }

  /** An unsubscribe message keeps them exact exactly when every symbol it repeats has this
      connection as its only subscriber. */
  lemma {:induction false} UnsubscribeKeepsIff(st: State, c: Connection, symbols: seq<Symbol>)
    requires Exact(st) && c in st.open
    ensures Exact(Unsubscribed(st, c, symbols))
       <==> forall s :: multiset(Held(st.open[c], symbols))[s] >= 2 ==> |Holders(st.open, s)| == 1
  {
    var removed := Held(st.open[c], symbols);
    if removed != [] {
      var after := Unsubscribed(st, c, symbols);
      forall s ensures CreditAfter(st, c, removed, after, s) { CreditsAfterUnsubscribe(st, c, symbols, s); }
      assert CreditAfter(st, c, removed, after, Ticker(""));
      if Exact(after) {
        forall s | multiset(removed)[s] >= 2 ensures |Holders(st.open, s)| == 1 {
          assert CreditAfter(st, c, removed, after, s);
          assert Credit(after.counts, s) == |Holders(after.open, s)|;
        }
      }
      if forall s :: multiset(removed)[s] >= 2 ==> |Holders(st.open, s)| == 1 {
        forall s ensures Credit(after.counts, s) == |Holders(after.open, s)| {
          assert CreditAfter(st, c, removed, after, s);
        }
      }
    }
  }

  ghost predicate CreditAfter(st: State, c: Connection, removed: seq<Symbol>, after: State, s: Symbol) {
    var n, k := |Holders(st.open, s)|, multiset(removed)[s];
    && Positive(after.counts)
    && Credit(after.counts, s) == (if n <= k then 0 else n - k)
    && |Holders(after.open, s)| == (if k >= 1 then n - 1 else n)
    && (k >= 1 ==> n >= 1)
  }

  lemma {:induction false} CreditsAfterUnsubscribe(st: State, c: Connection, symbols: seq<Symbol>, s: Symbol)
    requires Exact(st) && c in st.open && Held(st.open[c], symbols) != []
    ensures CreditAfter(st, c, Held(st.open[c], symbols), Unsubscribed(st, c, symbols), s)
  {
    var removed := Held(st.open[c], symbols);
    RemoveRefsCredit(st.counts, removed, s);
    HoldersLeave(st.open, c, Members(removed), s);
    InMembers(removed, s);
    if multiset(removed)[s] >= 1 { assert c in Holders(st.open, s); }
  }

  /** The end of a connection always keeps them exact. */
  lemma {:induction false} DisconnectKeeps(st: State, c: Connection, order: seq<Symbol>)
    requires Exact(st) && c in st.open && Members(order) == st.open[c] && NoRepeats(order)
    ensures Exact(Disconnected(st, c, order))
  {
    var after := Disconnected(st, c, order);
    assert Ticker("") !in order by { InMembers(order, Ticker("")); }
    RemoveRefsCredit(st.counts, order, Ticker(""));
    forall s ensures Credit(after.counts, s) == |Holders(after.open, s)| {
      RemoveRefsCredit(st.counts, order, s);
      HoldersClose(st.open, c, s);
      InMembers(order, s);
      if s in st.open[c] { assert c in Holders(st.open, s); }
    }
  }

  lemma {:induction false} ConnectKeeps(st: State, c: Connection)
    requires Exact(st) && c !in st.open
    ensures Exact(Connected(st, c))
  {
    forall s ensures Holders(Connected(st, c).open, s) == Holders(st.open, s) {}
  }

  /** Whatever the messages repeat, a released symbol never stays subscribed upstream. */
  lemma {:induction false} ReleaseKeepsBacked(st: State, symbols: seq<Symbol>)
    requires Positive(st.counts) && Backed(st) && Ticker("") !in symbols
    ensures Backed(Released(st, symbols))
  {
    forall s | s in Released(st, symbols).upstream ensures s in Released(st, symbols).counts {
      RemoveRefsCredit(st.counts, symbols, s);
      if s !in symbols { assert multiset(symbols)[s] == 0; }
    }
  }

  lemma {:induction false} AddKeepsBacked(st: State, xs: seq<Symbol>)
    requires Backed(st) && Positive(st.counts) && Ticker("") !in xs
    ensures Backed(st.(counts := AddRefs(st.counts, xs)))
  {
    forall s | s in st.upstream ensures s in AddRefs(st.counts, xs) { AddRefsCredit(st.counts, xs, s); }
  }

  /** A subscribe message that brings something new, with the source connected and taking
      every symbol, leaves every counted symbol subscribed upstream; with the source away,
      none. */
  lemma {:induction false} SubscribeSyncsUpstream(
      st: State, c: Connection, symbols: seq<Symbol>, connected: bool, accepts: set<Symbol>)
    requires Exact(st) && c in st.open && Fresh(st.open[c], symbols) != []
    ensures var after := Subscribed(st, c, symbols, connected, accepts);
            && (connected ==> forall s :: s in after.counts && s in accepts ==> s in after.upstream)
            && (!connected ==> after.upstream == {})
  {
    AddRefsCredit(st.counts, Fresh(st.open[c], symbols), Ticker(""));
  }

  // ------------------------------------------------------------------ every interleaving

  datatype Event =
    | Connects(c: Connection)
    | Subscribes(c: Connection, symbols: seq<Symbol>, connected: bool, accepts: set<Symbol>)
    | Unsubscribes(c: Connection, symbols: seq<Symbol>)
    | Disconnects(c: Connection, order: seq<Symbol>)

  /** Events of a connection happen while it is open. */
  ghost predicate Possible(st: State, e: Event) {
    match e
    case Connects(c) => c !in st.open
    case Disconnects(c, order) => c in st.open && Members(order) == st.open[c] && NoRepeats(order)
    case _ => e.c in st.open
  }

  function Step(st: State, e: Event): State {
    match e
    case Connects(c) => Connected(st, c)
    case Subscribes(c, symbols, connected, accepts) =>
      if c in st.open then Subscribed(st, c, symbols, connected, accepts) else st
    case Unsubscribes(c, symbols) => if c in st.open then Unsubscribed(st, c, symbols) else st
    case Disconnects(c, order) => if c in st.open then Disconnected(st, c, order) else st
  }

  function Run(events: seq<Event>): State
    decreases |events|
  {
    if events == [] then State(map[], map[], {}) else Step(Run(events[..|events| - 1]), events[|events| - 1])
  }

  ghost predicate Legal(events: seq<Event>) {
    forall i :: 0 <= i < |events| ==> Possible(Run(events[..i]), events[i])
  }

  /** No message lists a symbol twice. */
  ghost predicate Tidy(e: Event) {
    match e
    case Subscribes(_, symbols, _, _) => NoRepeats(symbols)
    case Unsubscribes(_, symbols) => NoRepeats(symbols)
    case _ => true
  }

  lemma {:induction false} StepKeepsExact(st: State, e: Event)
    requires Exact(st) && Possible(st, e) && Tidy(e)
    ensures Exact(Step(st, e))
  {
    match e
    case Connects(c) => ConnectKeeps(st, c);
    case Subscribes(c, symbols, connected, accepts) =>
      forall s ensures multiset(Fresh(st.open[c], symbols))[s] <= 1 { FreshMentions(st.open[c], symbols, s); }
      SubscribeKeepsIff(st, c, symbols, connected, accepts);
    case Unsubscribes(c, symbols) =>
      forall s ensures multiset(Held(st.open[c], symbols))[s] <= 1 { HeldMentions(st.open[c], symbols, s); }
      UnsubscribeKeepsIff(st, c, symbols);
    case Disconnects(c, order) => DisconnectKeeps(st, c, order);
  }

  lemma {:induction false} StepKeepsBacked(st: State, e: Event)
    requires Exact(st) && Backed(st) && Possible(st, e)
    ensures Backed(Step(st, e))
  {
    match e
    case Connects(_) =>
    case Subscribes(c, symbols, _, _) => AddKeepsBacked(st, Fresh(st.open[c], symbols));
    case Unsubscribes(c, symbols) =>
      var removed := Held(st.open[c], symbols);
      ReleaseKeepsBacked(st.(open := st.open[c := st.open[c] - Members(removed)]), removed);
    case Disconnects(c, order) =>
      assert Ticker("") !in order by { InMembers(order, Ticker("")); }
      ReleaseKeepsBacked(st.(open := st.open - {c}), order);
  }

  lemma {:induction false} RunKeeps(events: seq<Event>)
    requires Legal(events) && forall e :: e in events ==> Tidy(e)
    ensures Exact(Run(events)) && Backed(Run(events))
    decreases |events|
  {
    if events == [] {
      forall s ensures Holders(map[], s) == {} {}
    } else {
      var init, e := events[..|events| - 1], events[|events| - 1];
      assert e in events && events[..|init|] == init;
      forall i | 0 <= i < |init| ensures Possible(Run(init[..i]), init[i]) {
        assert events[..i] == init[..i] && Possible(Run(events[..i]), events[i]);
      }
      RunKeeps(init);
      StepKeepsExact(Run(init), e);
      StepKeepsBacked(Run(init), e);
    }
  }

  /** Over every interleaving of connects, subscribes, unsubscribes and disconnects whose
      messages list no symbol twice: a symbol's count is the number of connections
      subscribed to it, its key is absent exactly when that is zero, and only symbols with
      a subscriber are subscribed upstream. */
  lemma {:induction false} CountsAreSubscribers(events: seq<Event>, s: Symbol)
    requires Legal(events) && forall e :: e in events ==> Tidy(e)
    ensures var st := Run(events);
            && Credit(st.counts, s) == |Holders(st.open, s)|
            && (s in st.counts <==> Holders(st.open, s) != {})
            && (s in st.upstream ==> Holders(st.open, s) != {})
  {
    RunKeeps(events);
  }

  // ------------------------------------------------------------------ one repeated symbol

  lemma {:induction false} FreshPair(s: Symbol)
    requires s != Ticker("")
    ensures Fresh({}, [s, s]) == [s, s]
  {
    assert [s, s][..1] == [s] && [s][..0] == [];
    assert Fresh({}, []) == [] && Fresh({}, [s]) == [] + [s] && Fresh({}, [s, s]) == [s] + [s];
  }

  lemma {:induction false} JoinTwice(open: map<Connection, set<Symbol>>, c: Connection, s: Symbol)
    ensures open[c := {}][c := {} + Members([s, s])] == open[c := {s}]
  {
    assert [s, s][0] == s;
    assert Members([s, s]) == {s};
    var none: set<Symbol> := {};
    assert none + {s} == {s};
  }

  lemma {:induction false} RepeatCountsTwice(st: State, c: Connection, s: Symbol, connected: bool, accepts: set<Symbol>)
    requires Exact(st) && c !in st.open && s != Ticker("")
    ensures var st1 := Subscribed(Connected(st, c), c, [s, s], connected, accepts);
            && st1.open == st.open[c := {s}] && Positive(st1.counts)
            && Credit(st1.counts, s) == |Holders(st.open, s)| + 2
  {
    FreshPair(s);
    JoinTwice(st.open, c, s);
    AddRefsCredit(st.counts, [s, s], s);
    OneMore([s], s, s);
    OneMore([], s, s);
    assert [s, s] == [s] + [s] && [s] == [] + [s];
  }

  /** A connection that subscribes to one symbol twice in one message and then closes
      leaves one count behind that no connection holds. */
  lemma {:induction false} RepeatOutlivesConnection(
      st: State, c: Connection, s: Symbol, connected: bool, accepts: set<Symbol>)
    requires Exact(st) && c !in st.open && s != Ticker("")
    ensures var st1 := Subscribed(Connected(st, c), c, [s, s], connected, accepts);
            var st2 := Disconnected(st1, c, [s]);
            && st1.open[c] == {s} && st2.open == st.open
            && Credit(st2.counts, s) == |Holders(st2.open, s)| + 1
  {
    RepeatCountsTwice(st, c, s, connected, accepts);
    var st1 := Subscribed(Connected(st, c), c, [s, s], connected, accepts);
    assert st.open[c := {s}] - {c} == st.open;
    RemoveRefsCredit(st1.counts, [s], s);
    assert multiset([s])[s] == 1;
  }

  lemma {:induction false} HeldPair(subscribed: set<Symbol>, s: Symbol)
    requires s in subscribed
    ensures Held(subscribed, [s, s]) == [s, s]
  {
    assert [s, s][..1] == [s] && [s][..0] == [];
    assert Held(subscribed, [s]) == [] + [s] && Held(subscribed, [s, s]) == [s] + [s];
  }

  lemma {:induction false} PairLeaves(open: map<Connection, set<Symbol>>, c: Connection, d: Connection, s: Symbol)
    requires c != d && c in open && d in open && s in open[d]
    ensures d in Holders(open[c := open[c] - Members([s, s])], s)
  {
  }

  /** A connection that lists a symbol twice in one unsubscribe takes the other
      subscriber's count with it, and the symbol is dropped upstream. */
  lemma {:induction false} RepeatStarvesOther(st: State, c: Connection, d: Connection, s: Symbol)
    requires Exact(st) && c != d && c in st.open && d in st.open && s != Ticker("")
    requires Holders(st.open, s) == {c, d}
    ensures var after := Unsubscribed(st, c, [s, s]);
            d in Holders(after.open, s) && s !in after.counts && s !in after.upstream
  {
    assert c in Holders(st.open, s) && d in Holders(st.open, s);
    HeldPair(st.open[c], s);
    RemoveRefsCredit(st.counts, [s, s], s);
    assert multiset([s, s])[s] == 2 && |{c, d}| == 2;
    PairLeaves(st.open, c, d, s);
  }

  // ------------------------------------------------------------------ what a message does

  lemma {:induction false} InList(xs: seq<Symbol>, s: Symbol)
    ensures s in xs <==> multiset(xs)[s] >= 1
  {
    InMembers(xs, s);
  }

  lemma {:induction false} FreshMentions(subscribed: set<Symbol>, xs: seq<Symbol>, s: Symbol)
    ensures multiset(Fresh(subscribed, xs))[s] == if s == Ticker("") || s in subscribed then 0 else multiset(xs)[s]
    decreases |xs|
  {
    if xs == [] {
    } else {
      var init, x := xs[..|xs| - 1], xs[|xs| - 1];
      FreshMentions(subscribed, init, s);
      var before := Fresh(subscribed, init);
      assert xs == init + [x];
      OneMore(init, x, s);
      OneMore(before, x, s);
      assert Fresh(subscribed, xs) == if x != Ticker("") && x !in subscribed then before + [x] else before;
    }
  }

  lemma {:induction false} HeldMentions(subscribed: set<Symbol>, xs: seq<Symbol>, s: Symbol)
    ensures multiset(Held(subscribed, xs))[s] == if s in subscribed then multiset(xs)[s] else 0
    decreases |xs|
  {
    if xs == [] {
    } else {
      var init, x := xs[..|xs| - 1], xs[|xs| - 1];
      HeldMentions(subscribed, init, s);
      var before := Held(subscribed, init);
      assert xs == init + [x];
      OneMore(init, x, s);
      OneMore(before, x, s);
      assert Held(subscribed, xs) == if x in subscribed then before + [x] else before;
    }
  }

  /** What the connections hold before and after a message of connection c. */
  ghost predicate OnlyOwn(before: map<Connection, set<Symbol>>, after: map<Connection, set<Symbol>>, c: Connection) {
    before.Keys == after.Keys && forall d :: d in before && d != c ==> after[d] == before[d]
  }

  /** A subscribe message: the connection holds the named symbols that it lists too. */
  lemma {:induction false} SubscribeHolds(
      st: State, c: Connection, symbols: seq<Symbol>, connected: bool, accepts: set<Symbol>, s: Symbol)
    requires c in st.open
    ensures var after := Subscribed(st, c, symbols, connected, accepts).open;
            OnlyOwn(st.open, after, c) && (s in after[c] <==> s in st.open[c] || (s in symbols && s != Ticker("")))
  {
    var added := Fresh(st.open[c], symbols);
    assert s in Members(added) <==> s in added;
  }

  /** Each symbol that the connection did not hold gains a count per mention, and no other. */
  lemma {:induction false} SubscribeCredits(
      st: State, c: Connection, symbols: seq<Symbol>, connected: bool, accepts: set<Symbol>, s: Symbol)
    requires c in st.open && Positive(st.counts)
    ensures Credit(Subscribed(st, c, symbols, connected, accepts).counts, s)
         == Credit(st.counts, s) + if s == Ticker("") || s in st.open[c] then 0 else multiset(symbols)[s]
  {
    var added := Fresh(st.open[c], symbols);
    FreshMentions(st.open[c], symbols, s);
    if added == [] {
      assert multiset(added)[s] == 0;
    } else {
      AddRefsCredit(st.counts, added, s);
    }
  }

  /** An unsubscribe message: the connection holds the listed symbols no more. */
  lemma {:induction false} UnsubscribeHolds(st: State, c: Connection, symbols: seq<Symbol>, s: Symbol)
    requires c in st.open
    ensures var after := Unsubscribed(st, c, symbols).open;
            OnlyOwn(st.open, after, c) && (s in after[c] <==> s in st.open[c] && s !in symbols)
  {
    var removed := Held(st.open[c], symbols);
    assert s in Members(removed) <==> s in removed;
  }

  /** How often an unsubscribe message debits a symbol: per mention, if the connection has it. */
  function Debit(st: State, c: Connection, symbols: seq<Symbol>, s: Symbol): nat
    requires c in st.open
  {
    if s in st.open[c] then multiset(symbols)[s] else 0
  }

  /** Counts fall by that and stop at zero; upstream drops exactly what runs out this way. */
  lemma {:induction false} UnsubscribeDebits(st: State, c: Connection, symbols: seq<Symbol>, s: Symbol)
    requires c in st.open && Positive(st.counts) && Ticker("") !in st.open[c]
    ensures var after, lost := Unsubscribed(st, c, symbols), Debit(st, c, symbols, s);
            && Credit(after.counts, s) == (if Credit(st.counts, s) <= lost then 0 else Credit(st.counts, s) - lost)
            && (s in after.upstream <==> s in st.upstream && (lost == 0 || Credit(st.counts, s) > lost))
  {
    var removed := Held(st.open[c], symbols);
    HeldMentions(st.open[c], symbols, s);
    InList(removed, s);
    if removed == [] {
      assert multiset(removed)[s] == 0;
    } else {
      RemoveRefsCredit(st.counts, removed, s);
    }
  }
}
