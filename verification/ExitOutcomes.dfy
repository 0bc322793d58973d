/** What the answers of broker and simulator do to a position, cycle by cycle. */
module ExitOutcomes {
  import opened Money
  import opened Options
  import opened PositionTracker
  import opened ExitLifecycle
  import opened ExitSafety

  // ------------------------------------------------------------------ answers

  /** The simulator takes the exit of this record: it holds that many whole shares. */
  predicate Simulated(o: OpenPosition, w: World) {
    w.simMode && w.simQty(o.symbol).Some? && w.simQty(o.symbol).value >= Truncate(o.quantity) as real
  }

  /** A fill price, or the fallback where it is missing. */
  function PriceOr(price: real, fallback: real): real { if price == 0.0 then fallback else price }

  /** The submission of this record is answered FILLED at a positive price. */
  predicate AnsweredFilled(o: OpenPosition, w: World, price: real) {
    if Simulated(o, w) then w.sim(o.id, o.attempts) == SimFilled && price > 0.0
    else
      match w.broker(o.id, o.attempts)
      case Placed(status, fillPrice, _) => status == FILLED && PriceOr(fillPrice, price) > 0.0
      case _ => false
  }

  /** It is answered by nothing, by an order error or by a status that is neither FILLED nor
      PENDING. */
  predicate AnsweredFailed(o: OpenPosition, w: World, price: real) {
    if Simulated(o, w) then !(w.sim(o.id, o.attempts) == SimFilled && price > 0.0)
    else
      match w.broker(o.id, o.attempts)
      case NoTrade => true
      case OrderError => true
      case OtherError => false
      case Placed(status, _, _) => status != FILLED && status != PENDING
  }

  predicate AnsweredPending(o: OpenPosition, w: World) {
    !Simulated(o, w) && w.broker(o.id, o.attempts).Placed? && w.broker(o.id, o.attempts).status == PENDING
  }

  /** The pending order is reported FILLED at a positive price. */
  predicate ReportedFilled(pos: OpenPosition, w: World) {
    pos.pendingOrder.Some? && pos.pendingOrder.value != 0 &&
    var trade := w.tradeOf(pos.symbol, pos.pendingOrder.value);
    trade.Some? && trade.value.status == FILLED && PriceOr(trade.value.fillPrice, pos.entryPrice) > 0.0
  }

  /** The pending order is over without a fill: unknown, cancelled, in error, or still open
      ninety seconds after its submission, or at an unknown time. */
  predicate PendingOver(pos: OpenPosition, w: World) {
    pos.pendingOrder.Some? && pos.pendingOrder.value != 0 &&
    var trade := w.tradeOf(pos.symbol, pos.pendingOrder.value);
    trade.None? || (trade.value.status != FILLED &&
      (trade.value.status in {CANCELLED, ERROR} || pos.lastAttempt.None? || w.now - pos.lastAttempt.value >= 90))
  }

  /** The price of the i-th submission of a cycle: the close for the first one of a position
      that is free to exit, the entry price for a forced one. */
  function SubmittedAt(pos: OpenPosition, market: map<string, Reading>, w: World, i: nat): real {
    if HasPending(pos) || pos.attempts >= 3 || i > 0 then pos.entryPrice
    else
      var r := if pos.symbol in market then Some(market[pos.symbol]) else w.fetch(pos.symbol);
      if r.Some? then r.value.close else 0.0
  }

  predicate FilledIn(pos: OpenPosition, market: map<string, Reading>, w: World, e: Effect, i: nat) {
    i < |e.orders| && AnsweredFilled(e.orders[i], w, SubmittedAt(pos, market, w, i))
  }

  predicate FailedIn(pos: OpenPosition, market: map<string, Reading>, w: World, e: Effect, i: nat) {
    i < |e.orders| && AnsweredFailed(e.orders[i], w, SubmittedAt(pos, market, w, i))
  }

  // ------------------------------------------------------------------ one submission

  /** What one submission of a stored record leaves, when nothing follows it. */
  ghost predicate Answered(pos: OpenPosition, w: World, price: real, e: Effect) {
    && (AnsweredFilled(pos, w, price) ==> e.exited && e.stored.None? && !e.raised)
    && (AnsweredPending(pos, w) ==>
          !e.exited && e.stored.Some? && e.stored.value.attempts == pos.attempts
          && e.stored.value.pendingOrder == w.broker(pos.id, pos.attempts).orderId
          && e.stored.value.lastAttempt == Some(w.now))
    && (AnsweredFailed(pos, w, price) ==>
          !e.exited && e.stored.Some? && e.stored.value.attempts == pos.attempts + 1
          && e.stored.value.pendingOrder == None && e.stored.value.lastAttempt == Some(w.now))
    && (!AnsweredFilled(pos, w, price) && !AnsweredPending(pos, w) && !AnsweredFailed(pos, w, price) ==>
          !e.exited && e.stored == Some(pos) && e.raised)
  }

  lemma {:induction false} ForcedAnswered(pos: OpenPosition, price: real, w: World)
    requires Truncate(pos.quantity) >= 1
    ensures var e := Place(Some(pos), price, w, true); e.orders == [pos] && Answered(pos, w, price, e)
  {
  }

  /** A second submission follows a failed one that takes the attempts to three. */
  predicate ForcedNext(pos: OpenPosition, w: World, price: real) {
    AnsweredFailed(pos, w, price) && !(!Simulated(pos, w) && w.broker(pos.id, pos.attempts).NoTrade?)
    && pos.attempts + 1 >= 3
  }

  lemma {:induction false} PlaceAnswered(pos: OpenPosition, price: real, w: World)
    requires Truncate(pos.quantity) >= 1
    ensures var e, next := Place(Some(pos), price, w, false), RetryState(pos, w.now);
            if ForcedNext(pos, w, price) then e.orders == [pos, next] && Answered(next, w, pos.entryPrice, e)
            else e.orders == [pos] && Answered(pos, w, price, e)
  {
    if ForcedNext(pos, w, price) { ForcedAnswered(RetryState(pos, w.now), pos.entryPrice, w); }
  }

  lemma {:induction false} CapAnswered(pos: OpenPosition, stored: OpenPosition, w: World)
    requires Shares(pos) == Shares(stored) && stored.entryPrice == pos.entryPrice
    ensures var e := RetryCap(pos, Some(stored), w);
            if pos.attempts >= 3 && Truncate(pos.quantity) >= 1 then
              e.orders == [stored] && Answered(stored, w, pos.entryPrice, e)
            else e == Effect(Some(stored), [], false, false)
  {
    if pos.attempts >= 3 && Truncate(pos.quantity) >= 1 { ForcedAnswered(stored, pos.entryPrice, w); }
  }

  // ------------------------------------------------------------------ one cycle

  lemma {:induction false} ResolvesTo(pos: OpenPosition, w: World)
    requires HasPending(pos)
    ensures var resolution := Resolve(pos, w.tradeOf(pos.symbol, pos.pendingOrder.value), w.now);
            && (resolution == NeedsRetry <==> PendingOver(pos, w))
            && (ReportedFilled(pos, w) ==> resolution == WasFilled)
  {
  }

  /** A cycle with a pending order: a reported fill closes the position, an order that is over
      counts as an attempt, any other is left to work. */
  lemma {:induction false} PendingCycle(pos: OpenPosition, market: map<string, Reading>, w: World)
    requires HasPending(pos)
    ensures var e := Cycle(pos, market, w);
            && (ReportedFilled(pos, w) ==> e.exited && e.stored.None? && e.orders == [])
            && (PendingOver(pos, w) ==>
                  var next := pos.(pendingOrder := None, attempts := pos.attempts + 1, lastAttempt := Some(w.now));
                  if next.attempts >= 3 && Truncate(pos.quantity) >= 1 then
                    e.orders == [next] && Answered(next, w, pos.entryPrice, e)
                  else e == Effect(Some(next), [], false, false))
            && (!PendingOver(pos, w) && !ReportedFilled(pos, w) ==>
                  !e.exited && e.orders == [] && e.stored.Some? && e.stored.value.attempts == pos.attempts)
  {
    ResolvesTo(pos, w);
    var next := RetryState(pos, w.now);
    CapAnswered(next, next, w);
  }

  /** A cycle at the retry cap sells at the entry price without asking for a signal. */
  lemma {:induction false} CappedCycle(pos: OpenPosition, market: map<string, Reading>, w: World)
    requires !HasPending(pos) && pos.attempts >= 3
    ensures var e, stored := Cycle(pos, market, w), Swept(pos, market);
            if Truncate(pos.quantity) >= 1 then e.orders == [stored] && Answered(stored, w, pos.entryPrice, e)
            else e == Effect(Some(stored), [], false, false)
  {
    CapAnswered(pos, Swept(pos, market), w);
  }

  /** The history a cycle reads for the position calls for an exit. */
  predicate ExitCalled(pos: OpenPosition, market: map<string, Reading>, w: World) {
    var r := if pos.symbol in market then Some(market[pos.symbol]) else w.fetch(pos.symbol);
    r.Some? && r.value.bars >= 2 && CheckExits(pos, r.value).Some?
  }

  /** A cycle of a position that is free to exit: it submits exactly when an exit is called
      for, and a row of less than one share is dropped instead. */
  lemma {:induction false} FreeCycle(pos: OpenPosition, market: map<string, Reading>, w: World)
    requires !HasPending(pos) && pos.attempts < 3
    ensures var e, stored, price := Cycle(pos, market, w), Swept(pos, market), SubmittedAt(pos, market, w, 0);
            if !ExitCalled(pos, market, w) then e == Effect(Some(stored), [], false, false)
            else if Truncate(pos.quantity) < 1 then e == Effect(None, [], false, false)
            else if ForcedNext(stored, w, price) then
              var next := RetryState(stored, w.now);
              e.orders == [stored, next] && Answered(next, w, pos.entryPrice, e)
            else e.orders == [stored] && Answered(stored, w, price, e)
  {
    if ExitCalled(pos, market, w) && Truncate(pos.quantity) >= 1 {
      PlaceAnswered(Swept(pos, market), SubmittedAt(pos, market, w, 0), w);
    }
  }

  /** Fills close positions, for every position, market and world: a submission answered
      FILLED at a positive price is the last one of its cycle and a pending order reported
      FILLED at one leaves none; either way the row is gone and the exit recorded. */
  lemma {:induction false} FillCloses(pos: OpenPosition, market: map<string, Reading>, w: World, i: nat)
    ensures var e := Cycle(pos, market, w);
            && (FilledIn(pos, market, w, e, i) ==> i == |e.orders| - 1 && e.exited && e.stored.None?)
            && (ReportedFilled(pos, w) ==> e.orders == [] && e.exited && e.stored.None?)
  {
    if HasPending(pos) {
      PendingCycle(pos, market, w);
    } else if pos.attempts >= 3 {
      CappedCycle(pos, market, w);
    } else {
      FreeCycle(pos, market, w);
    }
  }

  /** And nothing else closes one: an exit has its fill. */
  lemma {:induction false} ExitHasFill(pos: OpenPosition, market: map<string, Reading>, w: World)
    ensures var e := Cycle(pos, market, w);
            e.exited ==> ReportedFilled(pos, w) || (e.orders != [] && FilledIn(pos, market, w, e, |e.orders| - 1))
  {
    if HasPending(pos) {
      PendingCycle(pos, market, w);
    } else if pos.attempts >= 3 {
      CappedCycle(pos, market, w);
    } else {
      FreeCycle(pos, market, w);
    }
  }

  function One(b: bool): nat { if b then 1 else 0 }

  /** The attempts of a row that stays grow by the failed submissions of the cycle, and by one
      for a pending order that is over. */
  lemma {:induction false} AttemptsCountFailures(pos: OpenPosition, market: map<string, Reading>, w: World)
    ensures var e := Cycle(pos, market, w);
            e.stored.Some? ==>
              e.stored.value.attempts == pos.attempts + One(PendingOver(pos, w))
                + One(FailedIn(pos, market, w, e, 0)) + One(FailedIn(pos, market, w, e, 1))
  {
    if HasPending(pos) {
      PendingCycle(pos, market, w);
    } else if pos.attempts >= 3 {
      CappedCycle(pos, market, w);
    } else {
      FreeCycle(pos, market, w);
    }
  }

  // ------------------------------------------------------------------ runs

  /** The cycle of this tick reports a fill for the position. */
  ghost predicate FillReportedIn(pos: OpenPosition, t: Tick) {
    t.reached && (ReportedFilled(pos, t.w)
      || exists i: nat :: FilledIn(pos, t.market, t.w, Cycle(pos, t.market, t.w), i))
  }

  lemma {:induction false} RunAfter(row: OpenPosition, ticks: seq<Tick>, n: nat)
    requires 0 < n <= |ticks|
    ensures var e := Step(row, ticks[0]);
            var rest := Run(e.stored, ticks[1..][..n - 1]);
            Run(Some(row), ticks[..n]) == Life(rest.row, e.orders + rest.orders, (if e.exited then 1 else 0) + rest.exits)
  {
    assert ticks[..n][0] == ticks[0] && ticks[..n][1..] == ticks[1..][..n - 1];
  }

  lemma {:induction false} FillEndsStep(pos: OpenPosition, t: Tick)
    requires FillReportedIn(pos, t)
    ensures Step(pos, t).stored.None? && Step(pos, t).exited
  {
    if ReportedFilled(pos, t.w) {
      FillCloses(pos, t.market, t.w, 0);
    } else {
      var i: nat :| FilledIn(pos, t.market, t.w, Cycle(pos, t.market, t.w), i);
      FillCloses(pos, t.market, t.w, i);
    }
  }

  /** Over every run: once a fill is reported, in cycle n, the row is gone, there is one exit,
      and no later cycle submits anything. */
  lemma {:induction false} NothingAfterFill(row: Option<OpenPosition>, ticks: seq<Tick>, n: nat)
    requires n < |ticks| && Run(row, ticks[..n]).row.Some?
    requires FillReportedIn(Run(row, ticks[..n]).row.value, ticks[n])
    ensures var life := Run(row, ticks);
            && life.row.None? && life.orders == Run(row, ticks[..n + 1]).orders
            && life.exits == Run(row, ticks[..n]).exits + 1
    decreases n
  {
    assert ticks[..|ticks|] == ticks && row.Some?;
    var rest := ticks[1..];
    RunAfter(row.value, ticks, |ticks|);
    RunAfter(row.value, ticks, n + 1);
    var e := Step(row.value, ticks[0]);
    if n == 0 {
      FillEndsStep(row.value, ticks[0]);
    } else {
      RunAfter(row.value, ticks, n);
      assert rest[..|rest|] == rest && rest[n - 1] == ticks[n];
      NothingAfterFill(e.stored, rest, n - 1);
    }
  }
}
