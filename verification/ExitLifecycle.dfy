/** The exit lifecycle of `backend/bot_exits.py` and `backend/services/order_recovery.py`.
    Broker, simulator and market data are an arbitrary `World`. */
module ExitLifecycle {
  import opened Money
  import opened Options
  import opened PositionTracker

  const MAX_EXIT_ATTEMPTS: nat := 3
  const EXIT_PENDING_TIMEOUT: int := 90

  datatype Status = PENDING | FILLED | CANCELLED | ERROR | UNKNOWN

  /** What `place_order` does: nothing, a caught error, an uncaught error, or a trade.
      A fill price of zero stands for a missing one. */
  datatype BrokerReply =
    | NoTrade
    | OrderError
    | OtherError
    | Placed(status: Status, fillPrice: real, orderId: Option<int>)

  datatype SimReply = SimRefused | SimError | SimFilled

  datatype PendingTrade = PendingTrade(status: Status, fillPrice: real)

  /** Everything one cycle can observe. Replies are keyed by position and attempt
      count, so two submissions of one cycle may be answered differently. */
  datatype World = World(
    simMode: bool,
    simQty: string -> Option<real>,
    sim: (string, nat) -> SimReply,
    broker: (string, nat) -> BrokerReply,
    tradeOf: (string, int) -> Option<PendingTrade>,
    fetch: string -> Option<Reading>,
    now: int)

  /** Whole shares of a position. */
  function Shares(pos: OpenPosition): int { Truncate(pos.quantity) }

  /** Truthiness of `exit_pending_order_id`: neither missing nor zero. */
  predicate HasPending(pos: OpenPosition) { pos.pendingOrder.Some? && pos.pendingOrder.value != 0 }

  /** `mark_exit_retry_state`. */
  function RetryState(pos: OpenPosition, now: int): OpenPosition {
    pos.(pendingOrder := None, attempts := pos.attempts + 1, lastAttempt := Some(now))
  }

  /** `mark_exit_pending_submitted`. */
  function SubmittedState(pos: OpenPosition, orderId: Option<int>, now: int): OpenPosition {
    pos.(pendingOrder := orderId, lastAttempt := Some(now))
  }

  datatype Resolution = StillPending | WasFilled | NeedsRetry

  /** `evaluate_pending_exit_resolution`. */
  function Resolve(pos: OpenPosition, trade: Option<PendingTrade>, now: int): Resolution {
    if trade.None? then NeedsRetry
    else if trade.value.status == FILLED then WasFilled
    else if trade.value.status in {CANCELLED, ERROR} then NeedsRetry
    else
      var elapsed := if pos.lastAttempt.Some? then now - pos.lastAttempt.value else EXIT_PENDING_TIMEOUT + 1;
      if elapsed >= EXIT_PENDING_TIMEOUT then NeedsRetry else StillPending
  }

  /** What happened to one position: its stored record afterwards, the record as it
      stood at each submission, whether it exited, whether an exception escaped. */
  datatype Effect = Effect(stored: Option<OpenPosition>, orders: seq<OpenPosition>, exited: bool, raised: bool)

  function Quiet(stored: Option<OpenPosition>): Effect { Effect(stored, [], false, false) }

  /** The simulator executes the exit when it holds enough shares. */
  predicate SimTakes(pos: OpenPosition, w: World) {
    w.simMode && w.simQty(pos.symbol).Some? && w.simQty(pos.symbol).value >= Shares(pos) as real
  }

  function OrElse(price: real, fallback: real): real { if price != 0.0 then price else fallback }

  /** Finalization deletes the position, or raises without a positive price. */
  function Finalize(pos: OpenPosition, price: real): Effect {
    if price > 0.0 then Effect(None, [pos], true, false) else Effect(Some(pos), [pos], false, true)
  }

  /** `_place_exit_order` on the stored record. */
  function Place(stored: Option<OpenPosition>, price: real, w: World, force: bool): Effect
    decreases if force then 0 else 2
  {
    if stored.None? || Shares(stored.value) < 1 then Quiet(stored)
    else
      var pos := stored.value;
      if SimTakes(pos, w) then
        if w.sim(pos.id, pos.attempts) == SimFilled && price > 0.0 then Finalize(pos, price)
        else Retried(pos, w, force)
      else
        match w.broker(pos.id, pos.attempts)
        case NoTrade => Effect(Some(RetryState(pos, w.now)), [pos], false, false)
        case OrderError => Retried(pos, w, force)
        case OtherError => Effect(stored, [pos], false, true)
        case Placed(status, fillPrice, orderId) =>
          if status == FILLED then Finalize(pos, OrElse(fillPrice, price))
          else if status == PENDING then Effect(Some(SubmittedState(pos, orderId, w.now)), [pos], false, false)
          else Retried(pos, w, force)
  }

  /** A failed submission: count it, then force-close if the cap is reached. */
  function Retried(pos: OpenPosition, w: World, force: bool): Effect
    decreases if force then 0 else 2, 0
  {
    var next := RetryState(pos, w.now);
    if force then Effect(Some(next), [pos], false, false)
    else
      var e := RetryCap(next, Some(next), w);
      e.(orders := [pos] + e.orders)
  }

  /** `_check_retry_cap`. */
  function RetryCap(pos: OpenPosition, stored: Option<OpenPosition>, w: World): Effect
    decreases 1
  {
    if pos.attempts >= MAX_EXIT_ATTEMPTS && Shares(pos) >= 1 then Place(stored, pos.entryPrice, w, true)
    else Quiet(stored)
  }

  /** `_reconcile_pending_exit`: works on, and saves, the record as it was loaded. */
  function Reconcile(pos: OpenPosition, stored: Option<OpenPosition>, w: World): Effect
    requires HasPending(pos)
  {
    var trade := w.tradeOf(pos.symbol, pos.pendingOrder.value);
    match Resolve(pos, trade, w.now)
    case WasFilled =>
      Finalize(pos.(pendingOrder := None), OrElse(trade.value.fillPrice, pos.entryPrice)).(orders := [])
    case NeedsRetry =>
      var next := RetryState(pos, w.now);
      RetryCap(next, Some(next), w)
    case StillPending => Quiet(stored)
  }

  function ReadingFor(pos: OpenPosition, market: map<string, Reading>, w: World): Option<Reading> {
    if pos.symbol in market then Some(market[pos.symbol]) else w.fetch(pos.symbol)
  }

  /** The stored record after the watermark sweep at the start of the cycle. */
  function Swept(pos: OpenPosition, market: map<string, Reading>): OpenPosition {
    if Priced(pos, market) then Raised(pos, market[pos.symbol].close) else pos
  }

  /** One position through one cycle of `_process_exits`. */
  function Cycle(pos: OpenPosition, market: map<string, Reading>, w: World): Effect {
    var stored := Some(Swept(pos, market));
    if HasPending(pos) then Reconcile(pos, stored, w)
    else if pos.attempts >= MAX_EXIT_ATTEMPTS then RetryCap(pos, stored, w)
    else
      var r := ReadingFor(pos, market, w);
      if r.None? || r.value.bars < 2 || CheckExits(pos, r.value).None? then Quiet(stored)
      else if Shares(pos) < 1 then Quiet(None)
      else Place(stored, r.value.close, w, false)
  }

  // ------------------------------------------------------------------ the program

  class ExitManager {
    var db: map<string, OpenPosition>
    var exitedThisCycle: set<string>
    ghost var orders: seq<OpenPosition>

    constructor ()
      ensures db == map[] && exitedThisCycle == {} && orders == []
    {
      db, exitedThisCycle, orders := map[], {}, [];
    }

    ghost function Stored(id: string): Option<OpenPosition>
      reads this
    {
      Row(db, id)
    }

    ghost function Now(): Books
      reads this
    {
      Books(db, orders, exitedThisCycle)
    }

    method Save(pos: OpenPosition)
      modifies this`db
      ensures db == old(db)[pos.id := pos]
    {
      db := db[pos.id := pos];
    }

    /** `finalize_filled_exit_trade` and the bookkeeping after it. */
    method FinalizeFilled(pos: OpenPosition, price: real) returns (raised: bool)
      modifies this`db, this`exitedThisCycle
      ensures raised <==> price <= 0.0
      ensures !raised ==> db == old(db) - {pos.id} && exitedThisCycle == old(exitedThisCycle) + {pos.symbol}
      ensures raised ==> db == old(db) && exitedThisCycle == old(exitedThisCycle)
    {
      raised := price <= 0.0;
      if !raised {
        db := db - {pos.id};
        exitedThisCycle := exitedThisCycle + {pos.symbol};
      }
    }

    method PlaceExitOrder(id: string, symbol: string, price: real, w: World, force: bool) returns (raised: bool)
      requires id in db ==> db[id].id == id && db[id].symbol == symbol
      modifies this
      ensures Now() == Apply(old(Now()), id, symbol, Place(old(Stored(id)), price, w, force))
      ensures raised == Place(old(Stored(id)), price, w, force).raised
      decreases if force then 0 else 2
    {
      raised := false;
      if id !in db { return; }
      var pos := db[id];
      if Shares(pos) < 1 { return; }
      orders := orders + [pos];
      if SimTakes(pos, w) {
        if w.sim(pos.id, pos.attempts) == SimFilled && price > 0.0 {
          raised := FinalizeFilled(pos, price);
        } else {
          raised := RetryAfterFailure(pos, w, force);
        }
        return;
      }
      match w.broker(pos.id, pos.attempts) {
        case NoTrade =>
          Save(RetryState(pos, w.now));
        case OrderError =>
          raised := RetryAfterFailure(pos, w, force);
        case OtherError =>
          raised := true;
        case Placed(status, fillPrice, orderId) =>
          if status == FILLED {
            raised := FinalizeFilled(pos, OrElse(fillPrice, price));
          } else if status == PENDING {
            Save(SubmittedState(pos, orderId, w.now));
          } else {
            raised := RetryAfterFailure(pos, w, force);
          }
      }
    }

    /** The tail of a failed submission, whose record is already the last of `orders`. */
    method RetryAfterFailure(pos: OpenPosition, w: World, force: bool) returns (raised: bool)
      requires orders != [] && orders[|orders| - 1] == pos
      modifies this
      ensures Now() == Apply(old(Books(db, orders[..|orders| - 1], exitedThisCycle)),
                               pos.id, pos.symbol, Retried(pos, w, force))
      ensures raised == Retried(pos, w, force).raised
      decreases if force then 0 else 2, 0
    {
      var next := RetryState(pos, w.now);
      Save(next);
      raised := false;
      if !force {
        raised := CheckRetryCap(next, w);
      }
    }

    method CheckRetryCap(pos: OpenPosition, w: World) returns (raised: bool)
      requires pos.id in db ==> db[pos.id].id == pos.id && db[pos.id].symbol == pos.symbol
      modifies this
      ensures Now() == Apply(old(Now()), pos.id, pos.symbol, RetryCap(pos, old(Stored(pos.id)), w))
      ensures raised == RetryCap(pos, old(Stored(pos.id)), w).raised
      decreases 1
    {
      raised := false;
      if pos.attempts >= MAX_EXIT_ATTEMPTS && Shares(pos) >= 1 {
        raised := PlaceExitOrder(pos.id, pos.symbol, pos.entryPrice, w, true);
      }
    }

    method ReconcilePendingExit(pos: OpenPosition, w: World) returns (raised: bool)
      requires HasPending(pos) && pos.id in db
      modifies this
      ensures Now() == Apply(old(Now()), pos.id, pos.symbol, Reconcile(pos, old(Stored(pos.id)), w))
      ensures raised == Reconcile(pos, old(Stored(pos.id)), w).raised
    {
      raised := false;
      var trade := w.tradeOf(pos.symbol, pos.pendingOrder.value);
      match Resolve(pos, trade, w.now) {
        case WasFilled =>
          var cleared := pos.(pendingOrder := None);
          Save(cleared);
          raised := FinalizeFilled(cleared, OrElse(trade.value.fillPrice, pos.entryPrice));
        case NeedsRetry =>
          var next := RetryState(pos, w.now);
          Save(next);
          raised := CheckRetryCap(next, w);
        case StillPending =>
      }
    }

    /** `_process_exits` over positions loaded at the start of the cycle. Returns the
        index at which an exception escaped, if one did: the rows up to it have their
        effect, the later ones are only swept, and no other row is touched. */
    method ProcessExits(positions: seq<OpenPosition>, market: map<string, Reading>, w: World)
      returns (failedAt: Option<nat>)
      requires Loaded(positions, db)
      modifies this
      ensures failedAt.Some? ==> failedAt.value < |positions| && Cycle(positions[failedAt.value], market, w).raised
      ensures NoneRaised(positions, if failedAt.Some? then failedAt.value else |positions|, market, w)
      ensures var n := Handled(failedAt, positions);
              && (forall i :: 0 <= i < n ==> Stored(positions[i].id) == Cycle(positions[i], market, w).stored)
              && (forall i :: n <= i < |positions| ==> Stored(positions[i].id) == Some(Swept(positions[i], market)))
              && (forall id :: Unlisted(id, positions) ==> Stored(id) == old(Stored(id)))
              && orders == old(orders) + AllOrders(positions[..n], market, w)
              && exitedThisCycle == old(exitedThisCycle) + ExitedSymbols(positions[..n], market, w)
    {
      var updated := UpdateWatermarks(positions, market);
      SaveAll(positions, market, updated);
      ghost var swept := Now();
      failedAt := ProcessEach(positions, market, w);
      HandledRows(swept, positions, Handled(failedAt, positions), market, w);
      HandledLogs(swept, positions[..Handled(failedAt, positions)], market, w);
    }

    /** The loop of `_process_exits` after the sweep. */
    method ProcessEach(positions: seq<OpenPosition>, market: map<string, Reading>, w: World)
      returns (failedAt: Option<nat>)
      requires forall i, j :: 0 <= i < j < |positions| ==> positions[i].id != positions[j].id
      requires forall p :: p in positions ==> Stored(p.id) == Some(Swept(p, market))
      modifies this
      ensures failedAt.Some? ==> failedAt.value < |positions| && Cycle(positions[failedAt.value], market, w).raised
      ensures NoneRaised(positions, if failedAt.Some? then failedAt.value else |positions|, market, w)
      ensures Now() == After(old(Now()), positions[..Handled(failedAt, positions)], market, w)
    {
      failedAt := None;
      for i := 0 to |positions|
        invariant failedAt.None? && NoneRaised(positions, i, market, w)
        invariant Now() == After(old(Now()), positions[..i], market, w)
      {
        OneMoreHandled(old(Now()), positions, i, market, w);
        UnlistedUntouched(old(Now()), positions[..i], market, w, positions[i].id);
        var raised := ProcessOne(positions[i], market, w);
        if raised {
          failedAt := Some(i);
          break;
        }
      }
      assert positions[..|positions|] == positions;
    }

    /** Write the rows one by one; rows with the same id are the same row. */
    method SaveRows(rows: seq<OpenPosition>)
      requires forall c, d :: c in rows && d in rows && c.id == d.id ==> c == d
      modifies this`db
      ensures forall id :: Unlisted(id, rows) ==> Stored(id) == old(Stored(id))
      ensures forall c :: c in rows ==> Stored(c.id) == Some(c)
    {
      var saved := 0;
      while saved < |rows|
        invariant 0 <= saved <= |rows|
        invariant forall id :: Unlisted(id, rows[..saved]) ==> Stored(id) == old(Stored(id))
        invariant forall c :: c in rows[..saved] ==> Stored(c.id) == Some(c)
      {
        var c := rows[saved];
        assert rows[..saved + 1] == rows[..saved] + [c];
        Save(c);
        saved := saved + 1;
      }
      assert rows[..saved] == rows;
    }

    /** The sweep: writing back the copies that moved leaves every row swept. */
    method SaveAll(positions: seq<OpenPosition>, market: map<string, Reading>, updated: seq<OpenPosition>)
      requires Loaded(positions, db) && updated == MovedCopies(positions, market)
      modifies this`db
      ensures forall p :: p in positions ==> Stored(p.id) == Some(Swept(p, market))
      ensures forall id :: Unlisted(id, positions) ==> Stored(id) == old(Stored(id))
    {
      ghost var before := db;
      CopiesOf(positions, market, before);
      SaveRows(updated);
      forall p | p in positions
        ensures Stored(p.id) == Some(Swept(p, market))
      {
        CopyOf(positions, market, before, p);
      }
    }

    method ProcessOne(pos: OpenPosition, market: map<string, Reading>, w: World) returns (raised: bool)
      requires Stored(pos.id) == Some(Swept(pos, market))
      modifies this
      ensures Now() == Apply(old(Now()), pos.id, pos.symbol, Cycle(pos, market, w))
      ensures raised == Cycle(pos, market, w).raised
    {
      raised := false;
      if HasPending(pos) {
        raised := ReconcilePendingExit(pos, w);
        return;
      }
      if pos.attempts >= MAX_EXIT_ATTEMPTS {
        raised := CheckRetryCap(pos, w);
        return;
      }
      var r := ReadingFor(pos, market, w);
      if r.None? || r.value.bars < 2 { return; }
      var reason := CheckExits(pos, r.value);
      if reason.None? { return; }
      if Shares(pos) < 1 {
        db := db - {pos.id};
        return;
      }
      raised := PlaceExitOrder(pos.id, pos.symbol, r.value.close, w, false);
    }
  }

  /** The state the manager keeps: stored rows, submissions so far, exited symbols. */
  datatype Books = Books(table: map<string, OpenPosition>, orders: seq<OpenPosition>, exited: set<string>)

  /** Books after an effect on one position; every other row is untouched. */
  ghost function Apply(b: Books, id: string, symbol: string, e: Effect): Books {
    Books(if e.stored.Some? then b.table[id := e.stored.value] else b.table - {id},
          b.orders + e.orders,
          b.exited + if e.exited then {symbol} else {})
  }

  ghost predicate Unlisted(id: string, positions: seq<OpenPosition>) {
    forall p :: p in positions ==> p.id != id
  }

  /** The list handed to a cycle: distinct rows of the table, as stored. */
  ghost predicate Loaded(positions: seq<OpenPosition>, db: map<string, OpenPosition>) {
    && (forall i, j :: 0 <= i < j < |positions| ==> positions[i].id != positions[j].id)
    && (forall p :: p in positions ==> p.id in db && db[p.id] == p)
  }

  ghost function AllOrders(positions: seq<OpenPosition>, market: map<string, Reading>, w: World): seq<OpenPosition> {
    if positions == [] then []
    else AllOrders(positions[..|positions| - 1], market, w) + Cycle(positions[|positions| - 1], market, w).orders
  }

  ghost function ExitedSymbols(positions: seq<OpenPosition>, market: map<string, Reading>, w: World): set<string> {
    set p | p in positions && Cycle(p, market, w).exited :: p.symbol
  }

  /** No exception escapes from the cycle of one of the first n positions. */
  ghost predicate NoneRaised(positions: seq<OpenPosition>, n: nat, market: map<string, Reading>, w: World) {
    forall i :: 0 <= i < n && i < |positions| ==> !Cycle(positions[i], market, w).raised
  }

  ghost function Handled(failedAt: Option<nat>, positions: seq<OpenPosition>): nat {
    if failedAt.Some? then failedAt.value + 1 else |positions|
  }

  /** Books after handling the listed positions one after the other. */
  ghost function After(b: Books, positions: seq<OpenPosition>, market: map<string, Reading>, w: World): Books {
    if positions == [] then b
    else
      var init, last := positions[..|positions| - 1], positions[|positions| - 1];
      Apply(After(b, init, market, w), last.id, last.symbol, Cycle(last, market, w))
  }

  lemma {:induction false} OneMoreHandled(
      b: Books, positions: seq<OpenPosition>, i: nat, market: map<string, Reading>, w: World)
    requires i < |positions|
    ensures After(b, positions[..i + 1], market, w)
         == Apply(After(b, positions[..i], market, w), positions[i].id, positions[i].symbol, Cycle(positions[i], market, w))
  {
    assert positions[..i + 1][..i] == positions[..i];
  }

  ghost function Row(table: map<string, OpenPosition>, id: string): Option<OpenPosition> {
    if id in table then Some(table[id]) else None
  }

  lemma {:induction false} UnlistedUntouched(b: Books, positions: seq<OpenPosition>,
                                             market: map<string, Reading>, w: World, id: string)
    requires Unlisted(id, positions)
    ensures Row(After(b, positions, market, w).table, id) == Row(b.table, id)
  {
    if positions == [] {
    } else {
      UnlistedUntouched(b, positions[..|positions| - 1], market, w, id);
    }
  }

  /** The copies that moved, against the rows they come from. */
  lemma {:induction false} CopiesOf(
      positions: seq<OpenPosition>, market: map<string, Reading>, db: map<string, OpenPosition>)
    requires Loaded(positions, db)
    ensures var updated := MovedCopies(positions, market);
            && (forall c, d :: c in updated && d in updated && c.id == d.id ==> c == d)
            && (forall id :: Unlisted(id, positions) ==> Unlisted(id, updated))
  {
    var updated := MovedCopies(positions, market);
    forall c | c in updated
      ensures exists p :: p in positions && Moved(p, market) && c == Raised(p, market[p.symbol].close)
    {
      MovedCopiesExactly(positions, market, c);
    }
  }

  lemma {:induction false} CopyOf(
      positions: seq<OpenPosition>, market: map<string, Reading>, db: map<string, OpenPosition>, p: OpenPosition)
    requires Loaded(positions, db) && p in positions
    ensures var updated := MovedCopies(positions, market);
            if Moved(p, market) then Swept(p, market) in updated && Swept(p, market).id == p.id
            else Unlisted(p.id, updated) && Swept(p, market) == p && Row(db, p.id) == Some(p)
  {
    var updated := MovedCopies(positions, market);
    MovedCopiesExactly(positions, market, Swept(p, market));
    if !Moved(p, market) {
      forall c | c in updated ensures c.id != p.id { MovedCopiesExactly(positions, market, c); }
    }
  }

  ghost predicate DistinctIds(positions: seq<OpenPosition>) {
    forall i, j :: 0 <= i < j < |positions| ==> positions[i].id != positions[j].id
  }

  /** The first n positions are handled, the others and all other rows as before. */
  ghost predicate RowsAre(after: map<string, OpenPosition>, before: map<string, OpenPosition>,
                          positions: seq<OpenPosition>, n: nat, market: map<string, Reading>, w: World) {
    && n <= |positions|
    && (forall i :: 0 <= i < n ==> Row(after, positions[i].id) == Cycle(positions[i], market, w).stored)
    && (forall i :: n <= i < |positions| ==> Row(after, positions[i].id) == Row(before, positions[i].id))
    && (forall id :: Unlisted(id, positions) ==> Row(after, id) == Row(before, id))
  }

  lemma {:induction false} OneMoreRow(
      table: map<string, OpenPosition>, before: map<string, OpenPosition>, positions: seq<OpenPosition>, n: nat,
      market: map<string, Reading>, w: World, after: map<string, OpenPosition>)
    requires DistinctIds(positions) && n < |positions| && RowsAre(table, before, positions, n, market, w)
    requires Row(after, positions[n].id) == Cycle(positions[n], market, w).stored
    requires forall id :: id != positions[n].id ==> Row(after, id) == Row(table, id)
    ensures RowsAre(after, before, positions, n + 1, market, w)
  {
    assert positions[n] in positions;
  }

  /** Handling positions with distinct ids one by one gives each its own effect. */
  lemma {:induction false} HandledRows(b: Books, positions: seq<OpenPosition>, n: nat,
                                       market: map<string, Reading>, w: World)
    requires n <= |positions| && DistinctIds(positions)
    ensures RowsAre(After(b, positions[..n], market, w).table, b.table, positions, n, market, w)
  {
    if n == 0 {
    } else {
      var k := n - 1;
      HandledRows(b, positions, k, market, w);
      OneMoreHandled(b, positions, k, market, w);
      OneMoreRow(After(b, positions[..k], market, w).table, b.table, positions, k, market, w,
                 After(b, positions[..n], market, w).table);
    }
  }

  lemma {:induction false} HandledOrders(b: Books, positions: seq<OpenPosition>, market: map<string, Reading>, w: World)
    ensures After(b, positions, market, w).orders == b.orders + AllOrders(positions, market, w)
  {
    if positions == [] {
    } else {
      var init, last := positions[..|positions| - 1], positions[|positions| - 1];
      HandledOrders(b, init, market, w);
      var e := Cycle(last, market, w);
      assert (b.orders + AllOrders(init, market, w)) + e.orders == b.orders + (AllOrders(init, market, w) + e.orders);
    }
  }

  lemma {:induction false} ExitedGrows(
      init: seq<OpenPosition>, last: OpenPosition, market: map<string, Reading>, w: World)
    ensures ExitedSymbols(init + [last], market, w)
         == ExitedSymbols(init, market, w) + if Cycle(last, market, w).exited then {last.symbol} else {}
  {
  }

  lemma {:induction false} HandledExits(b: Books, positions: seq<OpenPosition>, market: map<string, Reading>, w: World)
    ensures After(b, positions, market, w).exited == b.exited + ExitedSymbols(positions, market, w)
  {
    if positions == [] {
    } else {
      var init, last := positions[..|positions| - 1], positions[|positions| - 1];
      HandledExits(b, init, market, w);
      assert positions == init + [last];
      ExitedGrows(init, last, market, w);
    }
  }

  /** Orders and exited symbols of a cycle add up over its positions. */
  lemma {:induction false} HandledLogs(b: Books, positions: seq<OpenPosition>, market: map<string, Reading>, w: World)
    ensures After(b, positions, market, w).orders == b.orders + AllOrders(positions, market, w)
    ensures After(b, positions, market, w).exited == b.exited + ExitedSymbols(positions, market, w)
  {
    HandledOrders(b, positions, market, w);
    HandledExits(b, positions, market, w);
  }
}
