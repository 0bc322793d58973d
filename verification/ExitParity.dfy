/** The promise of `backend/backtester.py` that its exits mirror the live tracker: it raises
    the watermark and then checks; the live bot checks, and raises the stored copy only. */
module ExitParity {
  import opened Money
  import opened Options
  import opened Rounding
  import opened PositionTracker

  /** `_check_atr_exits`, which takes the pieces of a position as arguments. */
  function CheckAtrExits(r: Reading, hardStop: real, watermark: real, trailMult: real, side: Side): Option<Reason> {
    if HardStopHit(side, hardStop, r.close) then Some(HardStop)
    else if AtrTrailHit(r, hardStop, watermark, trailMult, side) then Some(TrailStop)
    else IndicatorExit(side, r)
  }

  predicate AtrTrailHit(r: Reading, hardStop: real, watermark: real, trailMult: real, side: Side) {
    r.bars >= 14 && r.atr.Some? &&
    if side == BUY then
      r.close <= Max(hardStop, Round4(watermark - TrailDistance(trailMult, r.atr.value)))
    else
      r.close >= Min(hardStop, Round4(watermark + TrailDistance(trailMult, r.atr.value)))
  }

  /** One bar of the backtester while it holds a long position. */
  function BacktestStep(r: Reading, hardStop: real, watermark: real, trailMult: real): (Option<Reason>, real) {
    var raised := if r.close > watermark then r.close else watermark;
    (CheckAtrExits(r, hardStop, raised, trailMult, BUY), raised)
  }

  /** One cycle of the live bot for the same position: decision, stored watermark. */
  function LiveStep(pos: OpenPosition, r: Reading): (Option<Reason>, real) {
    (CheckExits(pos, r), Raised(pos, r.close).watermark)
  }

  /** The two hard stops (the live one is stored with four decimals) decide alike. */
  predicate HardStopsAgree(r: Reading, hardStop: real, liveHardStop: real) {
    r.close <= hardStop <==> r.close <= liveHardStop
  }

  /** The trail distance survives rounding to four decimals. */
  predicate TrailResolved(r: Reading, trailMult: real) {
    r.bars >= 14 && r.atr.Some? ==> TrailDistance(trailMult, r.atr.value) > HALF_STEP_4
  }

  /** A new high whose trail stop rounds back up to the close itself, while the
      trail below the old watermark still lies under the close. */
  predicate RoundedOntoClose(pos: OpenPosition, r: Reading) {
    r.close > pos.watermark && r.bars >= 14 && r.atr.Some? &&
    var behind := TrailDistance(pos.trailMult, r.atr.value);
    Round4(pos.watermark - behind) < r.close <= Round4(r.close - behind)
  }

  /** Above both hard stops only the trails matter, and raising first can only raise the trail. */
  lemma {:induction false} TrailsCompared(pos: OpenPosition, r: Reading, atr: real)
    requires pos.side == BUY && r.bars >= 14 && r.atr == Some(atr)
    ensures ComputeTrailStop(pos, atr) == Round4(pos.watermark - TrailDistance(pos.trailMult, atr))
    ensures r.close > pos.watermark ==>
              Round4(pos.watermark - TrailDistance(pos.trailMult, atr)) <= Round4(r.close - TrailDistance(pos.trailMult, atr))
  {
    if r.close > pos.watermark {
      var behind := TrailDistance(pos.trailMult, atr);
      RoundIntMonotone((pos.watermark - behind) * 10000.0, (r.close - behind) * 10000.0);
    }
  }

  /** One bar, every input: the decisions coincide exactly when the hard stops
      agree and the close is not a new high swallowed by rounding. */
  lemma {:induction false} StepsAgreeIff(pos: OpenPosition, r: Reading, hardStop: real)
    requires pos.side == BUY && r.bars >= 2
    ensures BacktestStep(r, hardStop, pos.watermark, pos.trailMult).1 == LiveStep(pos, r).1
    ensures BacktestStep(r, hardStop, pos.watermark, pos.trailMult).0 == LiveStep(pos, r).0
       <==> HardStopsAgree(r, hardStop, pos.hardStop) && (r.close > hardStop ==> !RoundedOntoClose(pos, r))
  {
    if r.bars >= 14 && r.atr.Some? && r.close > hardStop && r.close > pos.hardStop {
      TrailsCompared(pos, r, r.atr.value);
    }
  }

  /** A resolved trail is never swallowed. */
  lemma {:induction false} ResolvedIsNotSwallowed(pos: OpenPosition, r: Reading)
    requires TrailResolved(r, pos.trailMult)
    ensures !RoundedOntoClose(pos, r)
  {
  }

  datatype Outcome = Outcome(exit: Option<(nat, Reason)>, watermark: real)

  /** The backtester over a stream of bars, up to and including its exit. */
  function BacktestRun(stream: seq<Reading>, hardStop: real, trailMult: real, watermark: real, at: nat): Outcome
    decreases |stream|
  {
    if stream == [] then Outcome(None, watermark)
    else
      var (reason, raised) := BacktestStep(stream[0], hardStop, watermark, trailMult);
      if reason.Some? then Outcome(Some((at, reason.value)), raised)
      else BacktestRun(stream[1..], hardStop, trailMult, raised, at + 1)
  }

  /** The live bot over the same stream, reloading the stored position each cycle. */
  function LiveRun(stream: seq<Reading>, pos: OpenPosition, at: nat): Outcome
    decreases |stream|
  {
    if stream == [] then Outcome(None, pos.watermark)
    else
      var (reason, stored) := LiveStep(pos, stream[0]);
      if reason.Some? then Outcome(Some((at, reason.value)), stored)
      else LiveRun(stream[1..], pos.(watermark := stored), at + 1)
  }

  predicate Faithful(stream: seq<Reading>, hardStop: real, liveHardStop: real, trailMult: real) {
    forall i :: 0 <= i < |stream| ==>
      stream[i].bars >= 2 && HardStopsAgree(stream[i], hardStop, liveHardStop) && TrailResolved(stream[i], trailMult)
  }

  /** Same bar, same reason, same stored watermark, over every stream. */
  lemma {:induction false} RunsAgree(stream: seq<Reading>, pos: OpenPosition, hardStop: real, at: nat)
    requires pos.side == BUY
    requires Faithful(stream, hardStop, pos.hardStop, pos.trailMult)
    ensures BacktestRun(stream, hardStop, pos.trailMult, pos.watermark, at) == LiveRun(stream, pos, at)
    decreases |stream|
  {
    if stream == [] {
    } else {
      var r := stream[0];
      ResolvedIsNotSwallowed(pos, r);
      StepsAgreeIff(pos, r, hardStop);
      RunsAgree(stream[1..], pos.(watermark := LiveStep(pos, r).1), hardStop, at + 1);
    }
  }

  /** Highest close of a stream, not below a start value. */
  function Highest(stream: seq<Reading>, start: real): real {
    if stream == [] then start else Highest(stream[1..], Max(start, stream[0].close))
  }

  /** How much of the stream a run consumed. */
  function Consumed(o: Outcome, at: nat, stream: seq<Reading>): seq<Reading>
    requires o.exit.Some? ==> at <= o.exit.value.0 < at + |stream|
  {
    if o.exit.Some? then stream[..o.exit.value.0 - at + 1] else stream
  }

  /** The live watermark is the highest of the entry and every close seen so far. */
  lemma {:induction false} LiveWatermarkIsHighest(stream: seq<Reading>, pos: OpenPosition, at: nat)
    requires pos.side == BUY
    ensures var o := LiveRun(stream, pos, at);
            && (o.exit.Some? ==> at <= o.exit.value.0 < at + |stream|)
            && o.watermark == Highest(Consumed(o, at, stream), pos.watermark)
    decreases |stream|
  {
    if stream == [] {
    } else {
      var (reason, stored) := LiveStep(pos, stream[0]);
      if reason.None? {
        LiveWatermarkIsHighest(stream[1..], pos.(watermark := stored), at + 1);
        var o := LiveRun(stream, pos, at);
        if o.exit.Some? {
          var k := o.exit.value.0 - at;
          assert stream[..k + 1][0] == stream[0];
          assert stream[..k + 1][1..] == stream[1..][..k];
        }
      } else {
        assert stream[..1][1..] == [];
      }
    }
  }

  /** The same for the backtester, without any assumption on rounding. */
  lemma {:induction false} BacktestWatermarkIsHighest(
      stream: seq<Reading>, hardStop: real, trailMult: real, watermark: real, at: nat)
    ensures var o := BacktestRun(stream, hardStop, trailMult, watermark, at);
            && (o.exit.Some? ==> at <= o.exit.value.0 < at + |stream|)
            && o.watermark == Highest(Consumed(o, at, stream), watermark)
    decreases |stream|
  {
    if stream == [] {
    } else {
      var (reason, raised) := BacktestStep(stream[0], hardStop, watermark, trailMult);
      if reason.None? {
        BacktestWatermarkIsHighest(stream[1..], hardStop, trailMult, raised, at + 1);
        var o := BacktestRun(stream, hardStop, trailMult, watermark, at);
        if o.exit.Some? {
          var k := o.exit.value.0 - at;
          assert stream[..k + 1][0] == stream[0];
          assert stream[..k + 1][1..] == stream[1..][..k];
        }
      } else {
        assert stream[..1][1..] == [];
      }
    }
  }

  /** The live exit is the first bar on which a condition fires: until the run ends, bar k is
      judged by the highest close before it, nothing fires before the exit and the reported
      reason fires on it. */
  lemma {:induction false} LiveExitIsFirst(stream: seq<Reading>, pos: OpenPosition, at: nat, k: nat)
    requires pos.side == BUY && k < |stream|
    ensures var exit := LiveRun(stream, pos, at).exit;
            var seen := pos.(watermark := Highest(stream[..k], pos.watermark));
            || (exit.Some? && exit.value.0 < at + k)
            || CheckExits(seen, stream[k]) == if exit.Some? && exit.value.0 == at + k then Some(exit.value.1) else None
    decreases |stream|
  {
    LiveWatermarkIsHighest(stream, pos, at);
    var (reason, stored) := LiveStep(pos, stream[0]);
    if k == 0 {
      if reason.None? { LiveWatermarkIsHighest(stream[1..], pos.(watermark := stored), at + 1); }
    } else if reason.None? {
      LiveExitIsFirst(stream[1..], pos.(watermark := stored), at + 1, k - 1);
      assert stream[..k][0] == stream[0] && stream[..k][1..] == stream[1..][..k - 1];
    }
  }

  /** So is the backtester's, whose bar k is judged by the highest close up to and with it. */
  lemma {:induction false} BacktestExitIsFirst(
      stream: seq<Reading>, hardStop: real, trailMult: real, watermark: real, at: nat, k: nat)
    requires k < |stream|
    ensures var exit := BacktestRun(stream, hardStop, trailMult, watermark, at).exit;
            var fires := CheckAtrExits(stream[k], hardStop, Highest(stream[..k + 1], watermark), trailMult, BUY);
            || (exit.Some? && exit.value.0 < at + k)
            || fires == if exit.Some? && exit.value.0 == at + k then Some(exit.value.1) else None
    decreases |stream|
  {
    BacktestWatermarkIsHighest(stream, hardStop, trailMult, watermark, at);
    var (reason, raised) := BacktestStep(stream[0], hardStop, watermark, trailMult);
    assert stream[..k + 1][0] == stream[0] && stream[..k + 1][1..] == stream[1..][..k];
    if k == 0 {
      assert Highest(stream[..1], watermark) == raised;
      if reason.None? { BacktestWatermarkIsHighest(stream[1..], hardStop, trailMult, raised, at + 1); }
    } else if reason.None? {
      BacktestExitIsFirst(stream[1..], hardStop, trailMult, raised, at + 1, k - 1);
    }
  }

  /** The guards of `StepsAgreeIff`, bar by bar until the first exit. */
  predicate Mirrored(stream: seq<Reading>, pos: OpenPosition, hardStop: real)
    decreases |stream|
  {
    stream == [] ||
    var r := stream[0];
    && HardStopsAgree(r, hardStop, pos.hardStop)
    && (r.close > hardStop ==> !RoundedOntoClose(pos, r))
    && (CheckExits(pos, r).None? ==> Mirrored(stream[1..], Raised(pos, r.close), hardStop))
  }

  /** Every stream: the whole runs coincide exactly when those guards hold. */
  lemma {:induction false} RunsAgreeIff(stream: seq<Reading>, pos: OpenPosition, hardStop: real, at: nat)
    requires pos.side == BUY
    requires forall i :: 0 <= i < |stream| ==> stream[i].bars >= 2
    ensures BacktestRun(stream, hardStop, pos.trailMult, pos.watermark, at) == LiveRun(stream, pos, at)
       <==> Mirrored(stream, pos, hardStop)
    decreases |stream|
  {
    if stream == [] {
    } else {
      var r := stream[0];
      StepsAgreeIff(pos, r, hardStop);
      RunsAgreeIff(stream[1..], Raised(pos, r.close), hardStop, at + 1);
      LiveWatermarkIsHighest(stream[1..], Raised(pos, r.close), at + 1);
      BacktestWatermarkIsHighest(stream[1..], hardStop, pos.trailMult, Raised(pos, r.close).watermark, at + 1);
    }
  }

  /** Entry on both sides: the two programs start from the same watermark, and
      their hard stops differ by at most half a step. */
  lemma {:induction false} EntryParity(
      id: string, symbol: string, quantity: real, fill: real, history: Reading, stopMult: real, trailMult: real)
    requires fill > 0.0
    ensures var live := RegisterPosition(id, symbol, BUY, quantity, fill, history, stopMult, trailMult).value;
            var hard := HardStopAtEntry(BUY, fill, stopMult, AtrAtEntry(history));
            && live.watermark == fill
            && hard - HALF_STEP_4 <= live.hardStop <= hard + HALF_STEP_4
            && forall r: Reading :: r.close <= hard - HALF_STEP_4 || r.close > hard + HALF_STEP_4
                 ==> HardStopsAgree(r, hard, live.hardStop)
  {
  }

  /** Without a resolved trail the mirror breaks: a one-tick new high on a nearly
      flat history stops the backtester out while the live bot holds on. */
  lemma {:induction false} UnresolvedTrailBreaksParity()
    ensures exists pos: OpenPosition, r: Reading ::
              && pos.side == BUY && r.bars >= 2 && HardStopsAgree(r, pos.hardStop, pos.hardStop)
              && BacktestStep(r, pos.hardStop, pos.watermark, pos.trailMult).0 == Some(TrailStop)
              && LiveStep(pos, r).0 == None
  {
    var pos := OpenPosition("p", "X", BUY, 1.0, 100.0, 97.0, 2.0, 100.0, None, 0, None);
    var r := Reading(14, 100.0001, Some(0.00001), NoCross, NoCross, None, None);
    assert (100.0001 - 2.0 * 0.00001) * 10000.0 == 1000000.8;
    assert RoundInt(1000000.8) == 1000001;
    assert (100.0 - 2.0 * 0.00001) * 10000.0 == 999999.8;
    assert RoundInt(999999.8) == 1000000;
    assert BacktestStep(r, pos.hardStop, pos.watermark, pos.trailMult).0 == Some(TrailStop);
    assert LiveStep(pos, r).0 == None;
  }
}
