/** Typed events and the priority queue of `backend/events.py`. */
module Events {
  import opened Symbols

  datatype SignalKind = GoLong | GoShort | GoFlat

  datatype Direction = LONG | SHORT

  datatype OrderType = MKT | LMT(price: real)

  datatype Event =
    | Market(timestamp: int, symbol: Symbol, close: real)
    | Signal(timestamp: int, symbol: Symbol, kind: SignalKind)
    | Order(timestamp: int, symbol: Symbol, orderType: OrderType, quantity: int, direction: Direction)
    | Fill(timestamp: int, symbol: Symbol, quantity: int, fillPrice: real, commission: real)

  /** MARKET, SIGNAL, ORDER, FILL. */
  function Rank(e: Event): (r: nat)
    ensures r <= 3
  {
    match e
    case Market(_, _, _) => 0
    case Signal(_, _, _) => 1
    case Order(_, _, _, _, _) => 2
    case Fill(_, _, _, _, _) => 3
  }

  datatype Entry = Entry(timestamp: int, counter: nat, event: Event)

  /** The order of the tuples `(timestamp, counter, event)`; counters never repeat. */
  predicate Before(a: Entry, b: Entry) {
    a.timestamp < b.timestamp || (a.timestamp == b.timestamp && a.counter < b.counter)
  }

  predicate Ordered(q: seq<Entry>) {
    forall i, j :: 0 <= i < j < |q| ==> Before(q[i], q[j])
  }

  function Payload(q: seq<Entry>): seq<Event> {
    seq(|q|, i requires 0 <= i < |q| => q[i].event)
  }

  /** How many leading events are not later than `t`. */
  function Slot(s: seq<Event>, t: int): (i: nat)
    ensures i <= |s|
  {
    if s == [] || t < s[0].timestamp then 0 else 1 + Slot(s[1..], t)
  }

  predicate Chronological(s: seq<Event>) {
    forall i, j :: 0 <= i < j < |s| ==> s[i].timestamp <= s[j].timestamp
  }

  /** In a chronological sequence the slot separates the past from the future. */
  lemma {:induction false} SlotSplits(s: seq<Event>, t: int)
    requires Chronological(s)
    ensures forall k :: 0 <= k < |s| ==> (s[k].timestamp <= t <==> k < Slot(s, t))
  {
    if s != [] && s[0].timestamp <= t {
      SlotSplits(s[1..], t);
      forall k | 0 <= k < |s|
        ensures s[k].timestamp <= t <==> k < Slot(s, t)
      {
        if k > 0 { assert s[k] == s[1..][k - 1]; }
      }
    }
  }

  /** Splicing a newest entry at a place that respects the timestamps keeps the order. */
  lemma {:induction false} Spliced(q: seq<Entry>, i: nat, e: Entry)
    requires Ordered(q) && i <= |q|
    requires forall k :: 0 <= k < |q| ==> q[k].counter < e.counter
    requires forall k :: 0 <= k < |q| ==> (Payload(q)[k].timestamp <= e.timestamp <==> k < i)
    requires forall k :: 0 <= k < |q| ==> q[k].timestamp == q[k].event.timestamp
    ensures Ordered(q[..i] + [e] + q[i..])
    ensures Payload(q[..i] + [e] + q[i..]) == Payload(q)[..i] + [e.event] + Payload(q)[i..]
  {
    assert forall k :: 0 <= k < |q| ==> Payload(q)[k] == q[k].event;
  }

  class EventQueue {
    var counter: nat
    var q: seq<Entry>

    ghost predicate Valid()
      reads this
    {
      && Ordered(q)
      && forall i :: 0 <= i < |q| ==> q[i].counter <= counter && q[i].timestamp == q[i].event.timestamp
    }

    /** Pending events, next one first. */
    ghost function Pending(): seq<Event>
      reads this
    {
      Payload(q)
    }

    constructor ()
      ensures Valid() && Pending() == []
    {
      counter, q := 0, [];
    }

    /** The new event comes behind every pending one that is not later, before the rest. */
    method Put(e: Event)
      requires Valid()
      modifies this
      ensures Valid() && Chronological(old(Pending()))
      ensures var i := Slot(old(Pending()), e.timestamp);
              Pending() == old(Pending())[..i] + [e] + old(Pending())[i..]
    {
      counter := counter + 1;
      var i := Slot(Payload(q), e.timestamp);
      SlotSplits(Payload(q), e.timestamp);
      var entry := Entry(e.timestamp, counter, e);
      var before := q;
      q := before[..i] + [entry] + before[i..];
      Spliced(before, i, entry);
    }

    predicate Empty()
      reads this
    {
      q == []
    }

    /** The earliest event, and among equal timestamps the one put first. */
    method Get() returns (e: Event)
      requires Valid() && !Empty()
      modifies this
      ensures Valid() && counter == old(counter)
      ensures [e] + Pending() == old(Pending())
      ensures forall k :: 0 <= k < |Pending()| ==> e.timestamp <= Pending()[k].timestamp
      ensures e == old(q)[0].event && |q| < |old(q)|
    {
      e := q[0].event;
      assert forall k :: 0 < k < |q| ==> Before(q[0], q[k]);
      q := q[1..];
    }

    /** Exactly the events that share the next timestamp, in the order they were put. */
    method GetBatch() returns (batch: seq<Event>)
      requires Valid()
      modifies this
      ensures Valid()
      ensures batch + Pending() == old(Pending())
      ensures forall k :: 0 <= k < |batch| ==> batch[k].timestamp == batch[0].timestamp
      ensures batch == [] ==> Pending() == []
      ensures batch != [] ==> forall k :: 0 <= k < |Pending()| ==> batch[0].timestamp < Pending()[k].timestamp
    {
      if Empty() { return []; }
      var first := Get();
      batch := [first];
      while !Empty()
        invariant Valid() && batch != [] && batch[0] == first
        invariant batch + Pending() == old(Pending())
        invariant forall k :: 0 <= k < |batch| ==> batch[k].timestamp == first.timestamp
        invariant forall k :: 0 <= k < |Pending()| ==> first.timestamp <= Pending()[k].timestamp
        decreases |q|
      {
        var head := q[0];
        if head.timestamp == first.timestamp {
          ghost var before := Pending();
          var e := Get();
          assert before == [e] + Pending();
          batch := batch + [e];
        } else {
          assert Pending()[0].timestamp == head.timestamp;
          assert forall k :: 0 < k < |q| ==> Before(q[0], q[k]);
          break;
        }
      }
    }
  }
}
