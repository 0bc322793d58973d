/** What the exit lifecycle keeps, per cycle and over every run of cycles. */
module ExitSafety {
  import opened Options
  import opened PositionTracker
  import opened ExitParity
  import opened ExitLifecycle

  /** Somebody reported a completed exit for this position during the cycle. */
  ghost predicate FillReported(pos: OpenPosition, w: World) {
    || (HasPending(pos) && w.tradeOf(pos.symbol, pos.pendingOrder.value).Some?
        && w.tradeOf(pos.symbol, pos.pendingOrder.value).value.status == FILLED)
    || (exists a: nat :: pos.attempts <= a <= pos.attempts + 1 && FilledAt(pos, w, a))
  }

  predicate FilledAt(pos: OpenPosition, w: World, a: nat) {
    || (w.broker(pos.id, a).Placed? && w.broker(pos.id, a).status == FILLED)
    || (w.simMode && w.sim(pos.id, a) == SimFilled)
  }

  /** The record differs from the loaded one in its bookkeeping fields only. */
  predicate SamePosition(p: OpenPosition, q: OpenPosition) {
    q == p.(watermark := q.watermark, pendingOrder := q.pendingOrder, attempts := q.attempts, lastAttempt := q.lastAttempt)
  }

  /** An effect starting from a stored record without pending order. */
  predicate Sound(from: OpenPosition, e: Effect, w: World, attempts: nat) {
    && (e.stored.None? <==> e.exited)
    && (e.exited ==> exists a: nat :: attempts <= a <= attempts + 1 && FilledAt(from, w, a))
    && (forall o :: o in e.orders ==> !HasPending(o) && SamePosition(from, o))
    && (e.stored.Some? ==> SamePosition(from, e.stored.value) && e.stored.value.watermark == from.watermark
                           && from.attempts <= e.stored.value.attempts <= from.attempts + |e.orders|)
  }

  /** The forced submission is the last one. */
  lemma {:induction false} ForcedPlaceSound(pos: OpenPosition, price: real, w: World)
    requires !HasPending(pos)
    ensures var e := Place(Some(pos), price, w, true); |e.orders| <= 1 && Sound(pos, e, w, pos.attempts)
  {
    assert FilledAt(pos, w, pos.attempts) ==> exists a: nat :: pos.attempts <= a <= pos.attempts + 1 && FilledAt(pos, w, a);
  }

  lemma {:induction false} RetryCapSound(pos: OpenPosition, stored: OpenPosition, w: World)
    requires !HasPending(stored)
    ensures var e := RetryCap(pos, Some(stored), w);
            && |e.orders| <= 1
            && Sound(stored, e, w, stored.attempts)
            && (e.orders != [] ==> pos.attempts >= MAX_EXIT_ATTEMPTS)
  {
    ForcedPlaceSound(stored, pos.entryPrice, w);
  }

  /** At most two submissions, the second only once the retry cap is reached. */
  lemma {:induction false} PlaceSound(pos: OpenPosition, price: real, w: World)
    requires !HasPending(pos)
    ensures var e := Place(Some(pos), price, w, false);
            && |e.orders| <= 2
            && Sound(pos, e, w, pos.attempts)
            && (|e.orders| == 2 ==> e.orders[1].attempts >= MAX_EXIT_ATTEMPTS)
  {
    assert FilledAt(pos, w, pos.attempts) ==> exists a: nat :: pos.attempts <= a <= pos.attempts + 1 && FilledAt(pos, w, a);
    RetriedSound(pos, w);
  }

  lemma {:induction false} RetriedSound(pos: OpenPosition, w: World)
    requires !HasPending(pos)
    ensures var e := Retried(pos, w, false);
            && 1 <= |e.orders| <= 2
            && Sound(pos, e, w, pos.attempts)
            && (|e.orders| == 2 ==> e.orders[1].attempts >= MAX_EXIT_ATTEMPTS)
  {
    var next := RetryState(pos, w.now);
    var inner := RetryCap(next, Some(next), w);
    RetryCapSound(next, next, w);
    if inner.exited {
      assert FilledAt(pos, w, next.attempts) by {
        assert inner == Place(Some(next), next.entryPrice, w, true);
      }
    }
  }

  /** The row written back is the stale one: the raised watermark is lost. */
  predicate WatermarkLost(pos: OpenPosition, market: map<string, Reading>, w: World) {
    && HasPending(pos) && Moved(pos, market)
    && Resolve(pos, w.tradeOf(pos.symbol, pos.pendingOrder.value), w.now) != StillPending
  }

  /** The row disappears only through a reported fill or the below-one-share branch; nothing
      is submitted while an order is pending; at most two submissions; attempts never
      decrease; and the stored watermark is the swept one exactly when the row was not
      written back stale. */
  ghost predicate Safe(pos: OpenPosition, market: map<string, Reading>, w: World, e: Effect) {
    && (e.stored.None? ==> (e.exited && FillReported(pos, w)) || (Shares(pos) < 1 && !HasPending(pos)))
    && (e.exited ==> e.stored.None?)
    && |e.orders| <= 2
    && (forall o :: o in e.orders ==> !HasPending(o) && SamePosition(pos, o))
    && (e.stored.Some? ==>
          && SamePosition(pos, e.stored.value)
          && pos.attempts <= e.stored.value.attempts
          && (e.stored.value.watermark == Swept(pos, market).watermark <==> !WatermarkLost(pos, market, w))
          && e.stored.value.watermark in {pos.watermark, Swept(pos, market).watermark})
  }

  lemma {:induction false} PendingSafe(pos: OpenPosition, market: map<string, Reading>, w: World)
    requires HasPending(pos)
    ensures Safe(pos, market, w, Reconcile(pos, Some(Swept(pos, market)), w))
  {
    var next := RetryState(pos, w.now);
    RetryCapSound(next, next, w);
    var resolution := Resolve(pos, w.tradeOf(pos.symbol, pos.pendingOrder.value), w.now);
    if RetryCap(next, Some(next), w).exited && resolution == NeedsRetry {
      assert FilledAt(pos, w, next.attempts);
    }
  }

  /** An effect that is sound for the swept row, without a pending order. */
  lemma {:induction false} FreeSafe(pos: OpenPosition, market: map<string, Reading>, w: World, e: Effect)
    requires !HasPending(pos) && |e.orders| <= 2
    requires Sound(Swept(pos, market), e, w, Swept(pos, market).attempts)
    ensures Safe(pos, market, w, e)
  {
    var stored := Swept(pos, market);
    if e.exited {
      var a: nat :| stored.attempts <= a <= stored.attempts + 1 && FilledAt(stored, w, a);
      assert FilledAt(pos, w, a);
    }
  }

  /** One cycle is safe, for every position, market and world. */
  lemma {:induction false} CycleSafe(pos: OpenPosition, market: map<string, Reading>, w: World)
    ensures Safe(pos, market, w, Cycle(pos, market, w))
  {
    var stored := Swept(pos, market);
    if HasPending(pos) {
      PendingSafe(pos, market, w);
    } else if pos.attempts >= MAX_EXIT_ATTEMPTS {
      RetryCapSound(pos, stored, w);
      FreeSafe(pos, market, w, RetryCap(pos, Some(stored), w));
    } else {
      var r := ReadingFor(pos, market, w);
      if r.Some? && Cycle(pos, market, w) == Place(Some(stored), r.value.close, w, false) {
        PlaceSound(stored, r.value.close, w);
        FreeSafe(pos, market, w, Place(Some(stored), r.value.close, w, false));
      }
    }
  }

  // ------------------------------------------------------------------ runs

  /** One bot cycle as one position sees it; `reached` is false when an earlier
      position's exception cut the cycle short after the sweep. */
  datatype Tick = Tick(market: map<string, Reading>, w: World, reached: bool)

  function Step(pos: OpenPosition, t: Tick): Effect {
    if t.reached then Cycle(pos, t.market, t.w) else Quiet(Some(Swept(pos, t.market)))
  }

  datatype Life = Life(row: Option<OpenPosition>, orders: seq<OpenPosition>, exits: nat)

  /** A position over a run of cycles; once its row is gone it is never loaded again. */
  function Run(row: Option<OpenPosition>, ticks: seq<Tick>): Life
    decreases |ticks|
  {
    if ticks == [] || row.None? then Life(row, [], 0)
    else
      var e := Step(row.value, ticks[0]);
      var rest := Run(e.stored, ticks[1..]);
      Life(rest.row, e.orders + rest.orders, (if e.exited then 1 else 0) + rest.exits)
  }

  /** A run by its first cycle. */
  lemma {:induction false} RunFrom(row: OpenPosition, ticks: seq<Tick>, n: nat)
    requires 0 < n <= |ticks|
    ensures var e := Step(row, ticks[0]);
            Run(Some(row), ticks[..n]).orders == e.orders + Run(e.stored, ticks[1..][..n - 1]).orders
  {
    assert ticks[..n][0] == ticks[0] && ticks[..n][1..] == ticks[1..][..n - 1];
  }

  /** Cycle by cycle: each one of a run adds at most two submissions to those before it. */
  lemma {:induction false} TwoPerCycle(row: Option<OpenPosition>, ticks: seq<Tick>, n: nat)
    requires n < |ticks|
    ensures var before, after := Run(row, ticks[..n]).orders, Run(row, ticks[..n + 1]).orders;
            before <= after && |after| <= |before| + 2
    decreases n
  {
    if row.Some? {
      CycleSafe(row.value, ticks[0].market, ticks[0].w);
      var stored := Step(row.value, ticks[0]).stored;
      RunFrom(row.value, ticks, n + 1);
      if n == 0 {
        assert Run(stored, ticks[1..][..0]).orders == [];
      } else {
        RunFrom(row.value, ticks, n);
        TwoPerCycle(stored, ticks[1..], n - 1);
      }
    }
  }

  /** Over every run: no submission with an order pending, at most two times the cycles,
      at most one exit, attempts and favourable watermark never move back, and a row that
      is gone without an exit had less than one share. */
  lemma {:induction false} RunSafe(pos: OpenPosition, ticks: seq<Tick>)
    ensures var life := Run(Some(pos), ticks);
            && (forall o :: o in life.orders ==> !HasPending(o) && SamePosition(pos, o))
            && |life.orders| <= 2 * |ticks|
            && life.exits <= 1
            && (life.exits == 1 ==> life.row.None?)
            && (life.row.None? ==> life.exits == 1 || Shares(pos) < 1)
            && (life.row.Some? ==>
                  && SamePosition(pos, life.row.value)
                  && pos.attempts <= life.row.value.attempts
                  && (if pos.side == BUY then pos.watermark <= life.row.value.watermark
                      else life.row.value.watermark <= pos.watermark))
    decreases |ticks|
  {
    if ticks == [] {
    } else {
      CycleSafe(pos, ticks[0].market, ticks[0].w);
      var e := Step(pos, ticks[0]);
      if e.stored.Some? {
        RunSafe(e.stored.value, ticks[1..]);
      }
    }
  }

  /** A lost watermark, concretely: the price makes a new high in the very cycle in
      which the pending exit order turns out cancelled. */
  lemma {:induction false} StaleSaveLosesWatermark(pos: OpenPosition, w: World, price: real)
    requires pos.side == BUY && HasPending(pos) && price > pos.watermark && pos.attempts < 2
    requires w.tradeOf(pos.symbol, pos.pendingOrder.value) == Some(PendingTrade(CANCELLED, 0.0))
    ensures var market := map[pos.symbol := Reading(60, price, None, NoCross, NoCross, None, None)];
            && Swept(pos, market).watermark == price
            && Cycle(pos, market, w).stored == Some(RetryState(pos, w.now))
            && Cycle(pos, market, w).stored.value.watermark < price
  {
  }

  /** A submitted order is remembered exactly when the broker gave it a nonzero id. */
  lemma {:induction false} PendingRememberedIff(
      pos: OpenPosition, w: World, price: real, force: bool, orderId: Option<int>, fill: real)
    requires Shares(pos) >= 1 && !w.simMode && !HasPending(pos)
    requires w.broker(pos.id, pos.attempts) == Placed(PENDING, fill, orderId)
    ensures var e := Place(Some(pos), price, w, force);
            && e.orders == [pos] && e.stored.Some?
            && (HasPending(e.stored.value) <==> orderId.Some? && orderId.value != 0)
  {
  }

  /** The broker reports the order as working, and its time is not up. */
  predicate StillWorking(pos: OpenPosition, id: int, t: Tick) {
    t.reached ==> Resolve(pos, t.w.tradeOf(pos.symbol, id), t.w.now) == StillPending
  }

  /** A remembered order blocks the position: as long as it is working, over however many
      cycles, nothing is submitted and the row keeps the order. */
  lemma {:induction false} WorkingOrderBlocks(pos: OpenPosition, id: int, ticks: seq<Tick>)
    requires pos.pendingOrder == Some(id) && id != 0
    requires forall i :: 0 <= i < |ticks| ==> StillWorking(pos, id, ticks[i])
    ensures var life := Run(Some(pos), ticks);
            && life.orders == [] && life.exits == 0
            && life.row.Some? && life.row.value.pendingOrder == Some(id)
    decreases |ticks|
  {
    if ticks == [] {
    } else {
      var next := Step(pos, ticks[0]).stored.value;
      assert StillWorking(pos, id, ticks[0]);
      assert next == Swept(pos, ticks[0].market);
      forall i | 0 <= i < |ticks[1..]| ensures StillWorking(next, id, ticks[1..][i]) {
        assert StillWorking(pos, id, ticks[i + 1]);
      }
      WorkingOrderBlocks(next, id, ticks[1..]);
    }
  }

  /** So a submission left pending with a nonzero id, as `place_order` leaves it, is the only
      one until the order fills, ends or times out. */
  lemma {:induction false} SubmittedOnce(
      pos: OpenPosition, w: World, price: real, force: bool, id: int, fill: real, ticks: seq<Tick>)
    requires Shares(pos) >= 1 && !w.simMode && !HasPending(pos) && id != 0
    requires w.broker(pos.id, pos.attempts) == Placed(PENDING, fill, Some(id))
    requires forall i :: 0 <= i < |ticks| ==> StillWorking(SubmittedState(pos, Some(id), w.now), id, ticks[i])
    ensures var e := Place(Some(pos), price, w, force);
            e.orders == [pos] && Run(e.stored, ticks).orders == []
  {
    WorkingOrderBlocks(SubmittedState(pos, Some(id), w.now), id, ticks);
  }

  // ------------------------------------------------------------------ the live run

  /** A cycle that reaches the position and reads this history for it. */
  predicate Carries(t: Tick, symbol: string, r: Reading) {
    t.reached && symbol in t.market && t.market[symbol] == r && r.bars > 0
  }

  /** The cycle of a position that is free to exit takes the step of the live run. */
  lemma {:induction false} CycleTakesLiveStep(pos: OpenPosition, t: Tick, r: Reading)
    requires !HasPending(pos) && pos.attempts < MAX_EXIT_ATTEMPTS && Shares(pos) >= 1 && Carries(t, pos.symbol, r)
    ensures var (reason, raised) := LiveStep(pos, r);
            var e, stored := Step(pos, t), pos.(watermark := raised);
            if reason.None? then e == Quiet(Some(stored)) else e.orders != [] && e.orders[0] == stored
  {
  }

  /** Without an exit the row keeps the live watermark and nothing is submitted; with one the
      first submission comes on its bar, for the row with that watermark. */
  ghost predicate Follows(pos: OpenPosition, o: Outcome, ticks: seq<Tick>, at: nat) {
    var last := pos.(watermark := o.watermark);
    match o.exit
    case None => Run(Some(pos), ticks) == Life(Some(last), [], 0)
    case Some((bar, _)) =>
      && at <= bar < at + |ticks|
      && Run(Some(pos), ticks[..bar - at]).orders == []
      && var orders := Run(Some(pos), ticks[..bar - at + 1]).orders;
         orders != [] && orders[0] == last
  }

  /** The lifecycle of a position that is free to exit follows `LiveRun`. */
  lemma {:induction false} LifecycleFollowsLiveRun(
      pos: OpenPosition, stream: seq<Reading>, ticks: seq<Tick>, at: nat)
    requires !HasPending(pos) && pos.attempts < MAX_EXIT_ATTEMPTS && Shares(pos) >= 1
    requires |ticks| == |stream| && forall i :: 0 <= i < |stream| ==> Carries(ticks[i], pos.symbol, stream[i])
    ensures Follows(pos, LiveRun(stream, pos, at), ticks, at)
    decreases |stream|
  {
    if stream == [] {
    } else {
      var (reason, raised) := LiveStep(pos, stream[0]);
      assert Carries(ticks[0], pos.symbol, stream[0]);
      CycleTakesLiveStep(pos, ticks[0], stream[0]);
      if reason.None? {
        var next := pos.(watermark := raised);
        TailCarries(pos.symbol, stream, ticks);
        LifecycleFollowsLiveRun(next, stream[1..], ticks[1..], at + 1);
        QuietThen(pos, next, LiveRun(stream, pos, at), ticks, at);
      } else {
        FirstCycle(pos, ticks);
      }
    }
  }

  lemma {:induction false} TailCarries(symbol: string, stream: seq<Reading>, ticks: seq<Tick>)
    requires |ticks| == |stream| > 0 && forall i :: 0 <= i < |stream| ==> Carries(ticks[i], symbol, stream[i])
    ensures forall i :: 0 <= i < |stream[1..]| ==> Carries(ticks[1..][i], symbol, stream[1..][i])
  {
    forall i | 0 <= i < |stream[1..]| ensures Carries(ticks[1..][i], symbol, stream[1..][i]) {
      assert Carries(ticks[i + 1], symbol, stream[i + 1]);
    }
  }

  lemma {:induction false} FirstCycle(pos: OpenPosition, ticks: seq<Tick>)
    requires ticks != []
    ensures Run(Some(pos), ticks[..0]).orders == [] && Step(pos, ticks[0]).orders <= Run(Some(pos), ticks[..1]).orders
  {
    assert ticks[..1][0] == ticks[0] && ticks[..1][1..] == [];
  }

  /** After a quiet cycle the lifecycle follows what the rest follows, one bar earlier. */
  lemma {:induction false} QuietThen(pos: OpenPosition, next: OpenPosition, o: Outcome, ticks: seq<Tick>, at: nat)
    requires ticks != [] && Step(pos, ticks[0]) == Quiet(Some(next)) && next == pos.(watermark := next.watermark)
    requires Follows(next, o, ticks[1..], at + 1)
    ensures Follows(pos, o, ticks, at)
  {
    if o.exit.Some? {
      var k := o.exit.value.0 - at;
      RunOfMore(pos, ticks, next, k);
      RunOfMore(pos, ticks, next, k + 1);
    } else {
      RunOfMore(pos, ticks, next, |ticks|);
      assert ticks[..|ticks|] == ticks && ticks[1..][..|ticks| - 1] == ticks[1..];
    }
  }

  /** A quiet first cycle adds nothing to the rest. */
  lemma {:induction false} RunOfMore(pos: OpenPosition, ticks: seq<Tick>, next: OpenPosition, n: nat)
    requires 0 < n <= |ticks| && Step(pos, ticks[0]) == Quiet(Some(next))
    ensures Run(Some(pos), ticks[..n]) == Run(Some(next), ticks[1..][..n - 1])
  {
    assert ticks[..n][0] == ticks[0] && ticks[..n][1..] == ticks[1..][..n - 1];
    var rest := Run(Some(next), ticks[..n][1..]);
    assert [] + rest.orders == rest.orders;
  }
}
