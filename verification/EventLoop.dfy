/** The inner loop of `BacktestEngine.run` for any handlers: pop the next event, let
    its handler queue at most one event of the next rank, apply fills to the book. */
module EventLoop {
  import opened Events
  import opened Ledger

  /** What handling an event against a book puts on the queue. */
  type Cause = (Book, Event) -> seq<Event>

  /** One event at most, one rank higher, same timestamp and symbol; so a fill causes nothing. */
  ghost predicate Rising(g: Cause) {
    forall b: Book, e: Event :: RisesOn(g, b, e)
  }

  predicate RisesOn(g: Cause, b: Book, e: Event) {
    |g(b, e)| <= 1 &&
    (g(b, e) != [] ==>
       g(b, e)[0].timestamp == e.timestamp && g(b, e)[0].symbol == e.symbol && Rank(g(b, e)[0]) == Rank(e) + 1)
  }

  /** Each event may still cause one event per later rank. */
  function Load(q: seq<Event>): nat {
    if q == [] then 0 else 4 - Rank(q[0]) + Load(q[1..])
  }

  lemma {:induction false} LoadAppend(a: seq<Event>, b: seq<Event>)
    ensures Load(a + b) == Load(a) + Load(b)
  {
    if a == [] {
      assert a + b == b;
    } else {
      LoadAppend(a[1..], b);
      assert (a + b)[1..] == a[1..] + b;
    }
  }

  /** Book and queue after popping and handling the next event. */
  function NextBook(b: Book, e: Event): Book { if e.Fill? then FillBook(b, e) else b }

  function NextQueue(g: Cause, b: Book, q: seq<Event>): seq<Event>
    requires q != []
  {
    q[1..] + g(b, q[0])
  }

  lemma {:induction false} StepLightens(g: Cause, b: Book, q: seq<Event>)
    requires q != [] && Rising(g)
    ensures Load(NextQueue(g, b, q)) < Load(q)
  {
    assert RisesOn(g, b, q[0]);
    LoadAppend(q[1..], g(b, q[0]));
    if g(b, q[0]) != [] { assert g(b, q[0])[1..] == []; }
  }

  /** The book after a drain and every event handled, in order. */
  datatype Drained = Drained(book: Book, trace: seq<Event>)

  ghost function Drain(g: Cause, b: Book, q: seq<Event>): Drained
    requires Rising(g)
    decreases Load(q)
  {
    if q == [] then Drained(b, [])
    else
      StepLightens(g, b, q);
      var rest := Drain(g, NextBook(b, q[0]), NextQueue(g, b, q));
      Drained(rest.book, [q[0]] + rest.trace)
  }

  /** A drain that has already handled `done`. */
  function Resumed(done: seq<Event>, d: Drained): Drained { Drained(d.book, done + d.trace) }

  lemma {:induction false} ResumeStep(g: Cause, done: seq<Event>, b: Book, q: seq<Event>)
    requires q != [] && Rising(g)
    ensures Load(NextQueue(g, b, q)) < Load(q)
    ensures Resumed(done, Drain(g, b, q)) == Resumed(done + [q[0]], Drain(g, NextBook(b, q[0]), NextQueue(g, b, q)))
  {
    StepLightens(g, b, q);
    var rest := Drain(g, NextBook(b, q[0]), NextQueue(g, b, q));
    assert done + ([q[0]] + rest.trace) == done + [q[0]] + rest.trace;
  }

  /** Everything a batch of events causes, all against the same book. */
  function SpawnAll(g: Cause, b: Book, q: seq<Event>): seq<Event> {
    if q == [] then [] else g(b, q[0]) + SpawnAll(g, b, q[1..])
  }

  predicate AllRank(q: seq<Event>, r: nat) { forall k :: 0 <= k < |q| ==> Rank(q[k]) == r }

  predicate DistinctSymbols(q: seq<Event>) {
    forall i, j :: 0 <= i < j < |q| ==> q[i].symbol != q[j].symbol
  }

  /** A batch causes at most one event per member, of the next rank. */
  lemma {:induction false} SpawnAllRises(g: Cause, b: Book, q: seq<Event>, r: nat)
    requires Rising(g) && AllRank(q, r)
    ensures AllRank(SpawnAll(g, b, q), r + 1) && |SpawnAll(g, b, q)| <= |q|
  {
    if q == [] {
    } else {
      assert RisesOn(g, b, q[0]);
      SpawnAllRises(g, b, q[1..], r);
    }
  }

  /** Every caused event has a cause in the batch, with the same symbol. */
  lemma {:induction false} SpawnAllHasCause(g: Cause, b: Book, q: seq<Event>, x: Event)
    requires Rising(g) && x in SpawnAll(g, b, q)
    ensures exists k :: 0 <= k < |q| && g(b, q[k]) == [x] && q[k].symbol == x.symbol
  {
    assert RisesOn(g, b, q[0]);
    if x in g(b, q[0]) {
      assert g(b, q[0]) == [x];
    } else {
      SpawnAllHasCause(g, b, q[1..], x);
      var k :| 0 <= k < |q[1..]| && g(b, q[1..][k]) == [x] && q[1..][k].symbol == x.symbol;
      assert q[k + 1] == q[1..][k];
    }
  }

  lemma {:induction false} SpawnAllDistinct(g: Cause, b: Book, q: seq<Event>)
    requires Rising(g) && DistinctSymbols(q)
    ensures DistinctSymbols(SpawnAll(g, b, q))
  {
    if q == [] {
    } else {
      assert RisesOn(g, b, q[0]);
      SpawnAllDistinct(g, b, q[1..]);
      var first, rest := g(b, q[0]), SpawnAll(g, b, q[1..]);
      forall j | 0 <= j < |rest|
        ensures q[0].symbol != rest[j].symbol
      {
        SpawnAllHasCause(g, b, q[1..], rest[j]);
        var k :| 0 <= k < |q[1..]| && g(b, q[1..][k]) == [rest[j]] && q[1..][k].symbol == rest[j].symbol;
        assert q[k + 1] == q[1..][k];
      }
    }
  }

  /** Draining a batch without fills leaves the book alone and queues what it causes. */
  lemma {:induction false} DrainBatch(g: Cause, b: Book, batch: seq<Event>, rest: seq<Event>)
    requires Rising(g)
    requires forall k :: 0 <= k < |batch| ==> !batch[k].Fill?
    ensures var tail := Drain(g, b, rest + SpawnAll(g, b, batch));
            Drain(g, b, batch + rest) == Drained(tail.book, batch + tail.trace)
    decreases |batch|
  {
    if batch == [] {
      assert batch + rest == rest && rest + SpawnAll(g, b, batch) == rest;
    } else {
      var out := g(b, batch[0]);
      assert (batch + rest)[0] == batch[0];
      assert (batch + rest)[1..] + out == batch[1..] + (rest + out);
      DrainBatch(g, b, batch[1..], rest + out);
      assert rest + out + SpawnAll(g, b, batch[1..]) == rest + SpawnAll(g, b, batch);
      assert batch == [batch[0]] + batch[1..];
    }
  }

  function ApplyFills(b: Book, fills: seq<Event>): Book
    requires forall e :: e in fills ==> e.Fill?
    decreases |fills|
  {
    if fills == [] then b else ApplyFills(FillBook(b, fills[0]), fills[1..])
  }

  lemma {:induction false} DrainFills(g: Cause, b: Book, fills: seq<Event>)
    requires Rising(g)
    requires forall e :: e in fills ==> e.Fill?
    ensures Drain(g, b, fills) == Drained(ApplyFills(b, fills), fills)
    decreases |fills|
  {
    if fills == [] {
    } else {
      assert fills[0] in fills;
      assert RisesOn(g, b, fills[0]);
      assert NextQueue(g, b, fills) == fills[1..];
      DrainFills(g, FillBook(b, fills[0]), fills[1..]);
    }
  }

  function Signals(g: Cause, b: Book, markets: seq<Event>): seq<Event> { SpawnAll(g, b, markets) }
  function Orders(g: Cause, b: Book, markets: seq<Event>): seq<Event> { SpawnAll(g, b, Signals(g, b, markets)) }
  function Fills(g: Cause, b: Book, markets: seq<Event>): seq<Event> { SpawnAll(g, b, Orders(g, b, markets)) }

  lemma {:induction false} PhaseRanks(g: Cause, b: Book, markets: seq<Event>)
    requires Rising(g) && AllRank(markets, 0)
    ensures AllRank(Signals(g, b, markets), 1) && AllRank(Orders(g, b, markets), 2) && AllRank(Fills(g, b, markets), 3)
    ensures |Fills(g, b, markets)| <= |Orders(g, b, markets)| <= |Signals(g, b, markets)| <= |markets|
    ensures forall e :: e in Fills(g, b, markets) ==> e.Fill?
    ensures DistinctSymbols(markets) ==> DistinctSymbols(Fills(g, b, markets))
  {
    SpawnAllRises(g, b, markets, 0);
    SpawnAllRises(g, b, Signals(g, b, markets), 1);
    SpawnAllRises(g, b, Orders(g, b, markets), 2);
    if DistinctSymbols(markets) {
      SpawnAllDistinct(g, b, markets);
      SpawnAllDistinct(g, b, Signals(g, b, markets));
      SpawnAllDistinct(g, b, Orders(g, b, markets));
    }
  }

  /** One timestamp, any handlers: all MARKETs, then all SIGNALs, ORDERs and FILLs are
      handled, at most four steps per MARKET; every decision is taken against the book
      from before the bar, and the fills are applied last. */
  lemma {:induction false} PhaseOrdered(g: Cause, b: Book, markets: seq<Event>)
    requires Rising(g) && AllRank(markets, 0)
    ensures var s, o, f := Signals(g, b, markets), Orders(g, b, markets), Fills(g, b, markets);
            && AllRank(s, 1) && AllRank(o, 2) && AllRank(f, 3)
            && (forall e :: e in f ==> e.Fill?)
            && Drain(g, b, markets) == Drained(ApplyFills(b, f), markets + s + o + f)
            && |markets + s + o + f| <= 4 * |markets|
  {
    var s, o, f := Signals(g, b, markets), Orders(g, b, markets), Fills(g, b, markets);
    PhaseRanks(g, b, markets);
    DrainsThrough(g, b, markets, s, o, f);
  }

  lemma {:induction false} OrdersThrough(g: Cause, b: Book, o: seq<Event>, f: seq<Event>)
    requires Rising(g) && AllRank(o, 2) && f == SpawnAll(g, b, o) && forall e :: e in f ==> e.Fill?
    ensures Drain(g, b, o) == Drained(ApplyFills(b, f), o + f)
  {
    DrainFills(g, b, f);
    BatchThen(g, b, o, f, ApplyFills(b, f), f);
  }

  lemma {:induction false} SignalsThrough(g: Cause, b: Book, s: seq<Event>, o: seq<Event>, f: seq<Event>)
    requires Rising(g) && AllRank(s, 1) && AllRank(o, 2) && forall e :: e in f ==> e.Fill?
    requires o == SpawnAll(g, b, s) && f == SpawnAll(g, b, o)
    ensures Drain(g, b, s) == Drained(ApplyFills(b, f), s + (o + f))
  {
    OrdersThrough(g, b, o, f);
    BatchThen(g, b, s, o, ApplyFills(b, f), o + f);
  }

  /** Three batches without fills, each caused by the one before, and the fills. */
  lemma {:induction false} DrainsThrough(
      g: Cause, b: Book, m: seq<Event>, s: seq<Event>, o: seq<Event>, f: seq<Event>)
    requires Rising(g) && AllRank(m, 0) && AllRank(s, 1) && AllRank(o, 2) && forall e :: e in f ==> e.Fill?
    requires s == SpawnAll(g, b, m) && o == SpawnAll(g, b, s) && f == SpawnAll(g, b, o)
    ensures Drain(g, b, m) == Drained(ApplyFills(b, f), m + s + o + f)
  {
    SignalsThrough(g, b, s, o, f);
    BatchThen(g, b, m, s, ApplyFills(b, f), s + (o + f));
    Joined(m, s, o, f);
  }

  lemma {:induction false} Joined(m: seq<Event>, s: seq<Event>, o: seq<Event>, f: seq<Event>)
    ensures m + (s + (o + f)) == m + s + o + f
  {
  }

  /** A batch goes before all that it causes. */
  lemma {:induction false} BatchThen(
      g: Cause, b: Book, batch: seq<Event>, caused: seq<Event>, book: Book, rest: seq<Event>)
    requires Rising(g) && caused == SpawnAll(g, b, batch) && Drain(g, b, caused) == Drained(book, rest)
    requires forall k :: 0 <= k < |batch| ==> !batch[k].Fill?
    ensures Drain(g, b, batch) == Drained(book, batch + rest)
  {
    DrainBatchAlone(g, b, batch);
  }

  lemma {:induction false} DrainBatchAlone(g: Cause, b: Book, batch: seq<Event>)
    requires Rising(g)
    requires forall k :: 0 <= k < |batch| ==> !batch[k].Fill?
    ensures var tail := Drain(g, b, SpawnAll(g, b, batch));
            Drain(g, b, batch) == Drained(tail.book, batch + tail.trace)
  {
    DrainBatch(g, b, batch, []);
    assert batch + [] == batch && [] + SpawnAll(g, b, batch) == SpawnAll(g, b, batch);
  }
}
