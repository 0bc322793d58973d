/** What the change budget keeps over every run. */
module ChangeBudgetTheorems {
  import opened Money
  import opened Options
  import opened ChangeBudget

  /** A call of the enforcer, a revert, or a row that other code logs. */
  datatype Step =
    | Execute(p: Proposal, clock: Clock)
    | Revert(entry: nat, now: int)
    | Note(now: int, action: Action, status: Status)

  function Starts(s: Step): int { if s.Execute? then s.clock.counted else s.now }

  function Finishes(s: Step): int { if s.Execute? then s.clock.logged else s.now }

  predicate Timely(s: Step) {
    s.Execute? ==> s.clock.counted <= s.clock.checked <= s.clock.cooled <= s.clock.logged
  }

  /** The clock never goes back, within a step or between steps. */
  ghost predicate Monotone(steps: seq<Step>) {
    && (forall i :: 0 <= i < |steps| ==> Timely(steps[i]))
    && (forall i :: 0 < i < |steps| ==> Finishes(steps[i - 1]) <= Starts(steps[i]))
  }

  function Next(cfg: Config, log: seq<Row>, s: Step): seq<Row> {
    match s
    case Execute(p, clock) => Executes(cfg, log, p, clock)
    case Revert(entry, now) => Reverts(log, entry, now)
    case Note(now, action, status) => log + [Row(now, action, status, Elsewhere)]
  }

  function Run(cfg: Config, steps: seq<Step>): seq<Row>
    decreases |steps|
  {
    if steps == [] then [] else Next(cfg, Run(cfg, steps[..|steps| - 1]), steps[|steps| - 1])
  }

  /** A change the enforcer applied, whether or not it was reverted since. */
  predicate Change(r: Row) { r.writer == Enforcer && r.status in {Applied, Status.Reverted} }

  function ChangeOn(day: int): Row -> bool { (r: Row) => Change(r) && Day(r.at) == day }

  // ------------------------------------------------------------------ counting

  lemma {:induction false} CountAppend(log: seq<Row>, r: Row, p: Row -> bool)
    ensures Count(log + [r], p) == Count(log, p) + if p(r) then 1 else 0
  {
    assert (log + [r])[..|log|] == log;
  }

  lemma {:induction false} CountUpdate(log: seq<Row>, i: nat, r: Row, p: Row -> bool)
    requires i < |log|
    ensures Count(log[i := r], p) == Count(log, p) - (if p(log[i]) then 1 else 0) + if p(r) then 1 else 0
    decreases |log|
  {
    if i == |log| - 1 {
      assert log[i := r][..i] == log[..i];
    } else {
      assert log[i := r][..|log| - 1] == log[..|log| - 1][i := r];
      CountUpdate(log[..|log| - 1], i, r, p);
    }
  }

  lemma {:induction false} CountNone(log: seq<Row>, p: Row -> bool)
    requires forall i :: 0 <= i < |log| ==> !p(log[i])
    ensures Count(log, p) == 0
    decreases |log|
  {
    if log == [] {
    } else {
      CountNone(log[..|log| - 1], p);
    }
  }

  lemma {:induction false} CountImplies(log: seq<Row>, p: Row -> bool, q: Row -> bool)
    requires forall i :: 0 <= i < |log| && p(log[i]) ==> q(log[i])
    ensures Count(log, p) <= Count(log, q)
    decreases |log|
  {
    if log == [] {
    } else {
      CountImplies(log[..|log| - 1], p, q);
    }
  }

  lemma {:induction false} LastAppliedIsLatest(log: seq<Row>, i: nat)
    requires i < |log| && log[i].status == Applied
    ensures LastApplied(log).Some? && LastApplied(log).value >= log[i].at
    decreases |log|
  {
    if i < |log| - 1 { LastAppliedIsLatest(log[..|log| - 1], i); }
  }

  // ------------------------------------------------------------------ the invariant

  function Cap(n: int): nat { if n > 0 then n else 0 }

  ghost predicate Ordered(log: seq<Row>, now: int) {
    && (forall i :: 0 <= i < |log| ==> log[i].at <= now)
    && (forall i, j :: 0 <= i < j < |log| ==> log[i].at <= log[j].at)
  }

  /** The last applied row is no older than any change. */
  ghost predicate Covered(log: seq<Row>) {
    forall i :: 0 <= i < |log| && Change(log[i]) ==>
      exists j :: 0 <= j < |log| && log[j].status == Applied && log[j].at >= log[i].at
  }

  ghost predicate Spaced(cfg: Config, log: seq<Row>) {
    forall i, j :: 0 <= i < j < |log| && Change(log[i]) && Change(log[j]) ==>
      Hours(log[j].at - log[i].at) >= cfg.minHours
  }

  /** Reverts and other rows only add to what counts against today. */
  ghost predicate Compensated(log: seq<Row>, day: int) {
    Count(log, ChangeOn(day)) <= Count(log, AppliedSince(day))
  }

  ghost predicate WithinBudget(cfg: Config, log: seq<Row>) {
    forall d :: Count(log, ChangeOn(d)) <= Cap(cfg.maxChanges)
  }

  ghost predicate Kept(cfg: Config, log: seq<Row>, now: int) {
    Ordered(log, now) && Covered(log) && Spaced(cfg, log) && WithinBudget(cfg, log)
    && forall d :: d >= Day(now) ==> Compensated(log, d)
  }

  lemma {:induction false} LaterDayEmpty(log: seq<Row>, now: int, d: int)
    requires Ordered(log, now) && d > Day(now)
    ensures Count(log, ChangeOn(d)) == 0
  {
    forall i | 0 <= i < |log| ensures !ChangeOn(d)(log[i]) { DayMonotone(log[i].at, now); }
    CountNone(log, ChangeOn(d));
  }

  lemma {:induction false} DayMonotone(s: int, t: int)
    requires s <= t
    ensures Day(s) <= Day(t)
  {
  }

  lemma {:induction false} CoveredLast(log: seq<Row>, i: nat)
    requires Covered(log) && i < |log| && Change(log[i])
    ensures LastApplied(log).Some? && LastApplied(log).value >= log[i].at
  {
    var j :| 0 <= j < |log| && log[j].status == Applied && log[j].at >= log[i].at;
    LastAppliedIsLatest(log, j);
  }

  lemma {:induction false} CompensatedAppend(log: seq<Row>, r: Row, d: int)
    requires Compensated(log, d) && (Change(r) ==> r.status == Applied)
    ensures Compensated(log + [r], d)
  {
    CountAppend(log, r, ChangeOn(d));
    CountAppend(log, r, AppliedSince(d));
    assert ChangeOn(d)(r) ==> AppliedSince(d)(r);
  }

  /** An appended row that is not a change of the enforcer. */
  lemma {:induction false} AppendKeeps(cfg: Config, log: seq<Row>, now: int, r: Row)
    requires Kept(cfg, log, now) && now <= r.at && !Change(r)
    ensures Kept(cfg, log + [r], r.at)
  {
    AppendShape(log, now, r);
    forall d ensures Count(log + [r], ChangeOn(d)) == Count(log, ChangeOn(d)) { CountAppend(log, r, ChangeOn(d)); }
    DayMonotone(now, r.at);
    forall d | d >= Day(r.at) ensures Compensated(log + [r], d) { CompensatedAppend(log, r, d); }
    var after := log + [r];
    forall i, j | 0 <= i < j < |after| && Change(after[i]) && Change(after[j])
      ensures Hours(after[j].at - after[i].at) >= cfg.minHours
    {
    }
  }

  lemma {:induction false} AppendShape(log: seq<Row>, now: int, r: Row)
    requires Ordered(log, now) && now <= r.at && Covered(log) && (Change(r) ==> r.status == Applied)
    ensures Ordered(log + [r], r.at) && Covered(log + [r])
  {
    var after := log + [r];
    forall i | 0 <= i < |after| && Change(after[i])
      ensures exists j :: 0 <= j < |after| && after[j].status == Applied && after[j].at >= after[i].at
    {
      if i < |log| {
        var j :| 0 <= j < |log| && log[j].status == Applied && log[j].at >= log[i].at;
        assert after[j] == log[j];
      } else {
        assert after[i] == r;
      }
    }
  }

  /** The change itself: budget and cooldown were checked before it was logged. */
  lemma {:induction false} ChangeKeeps(cfg: Config, log: seq<Row>, now: int, p: Proposal, clock: Clock)
    requires Kept(cfg, log, now) && now <= clock.counted && Timely(Execute(p, clock))
    requires Outcome(cfg, log, p, clock) == Applied
    ensures Kept(cfg, Executes(cfg, log, p, clock), clock.logged)
  {
    var r := Row(clock.logged, p.action, Applied, Enforcer);
    AppendShape(log, now, r);
    DayMonotone(now, clock.logged);
    forall d ensures Count(log + [r], ChangeOn(d)) <= Cap(cfg.maxChanges) {
      CountAppend(log, r, ChangeOn(d));
      if d == Day(r.at) { RoomToday(cfg, log, now, p, clock); }
    }
    forall d | d >= Day(r.at) ensures Compensated(log + [r], d) { CompensatedAppend(log, r, d); }
    ChangeSpaced(cfg, log, p, clock);
  }

  lemma {:induction false} RoomToday(cfg: Config, log: seq<Row>, now: int, p: Proposal, clock: Clock)
    requires Kept(cfg, log, now) && now <= clock.counted && Timely(Execute(p, clock))
    requires Outcome(cfg, log, p, clock) == Applied
    ensures Count(log, ChangeOn(Day(clock.logged))) < cfg.maxChanges
  {
    DayMonotone(now, clock.checked);
    DayMonotone(clock.checked, clock.logged);
    if Day(clock.logged) > Day(now) {
      LaterDayEmpty(log, now, Day(clock.logged));
    } else {
      assert Compensated(log, Day(clock.checked));
    }
  }

  lemma {:induction false} ChangeSpaced(cfg: Config, log: seq<Row>, p: Proposal, clock: Clock)
    requires Covered(log) && Spaced(cfg, log) && Timely(Execute(p, clock))
    requires Outcome(cfg, log, p, clock) == Applied
    ensures Spaced(cfg, log + [Row(clock.logged, p.action, Applied, Enforcer)])
  {
    forall i | 0 <= i < |log| && Change(log[i]) ensures Hours(clock.logged - log[i].at) >= cfg.minHours {
      CoveredLast(log, i);
    }
  }

  lemma {:induction false} RevertKeeps(cfg: Config, log: seq<Row>, now: int, entry: nat, at: int)
    requires Kept(cfg, log, now) && now <= at
    ensures Kept(cfg, Reverts(log, entry, at), at)
  {
    if entry >= |log| || log[entry].status != Applied {
      DayMonotone(now, at);
    } else {
      var marked := log[entry := log[entry].(status := Status.Reverted)];
      var r := Row(at, RevertOf(log[entry].action), Applied, Reverter);
      RevertShape(cfg, log, now, entry, at);
      forall d ensures Count(marked + [r], ChangeOn(d)) <= Count(log, ChangeOn(d)) {
        CountUpdate(log, entry, log[entry].(status := Status.Reverted), ChangeOn(d));
        CountAppend(marked, r, ChangeOn(d));
      }
      DayMonotone(now, at);
      forall d | d >= Day(at) ensures Compensated(marked + [r], d) {
        RevertCompensates(log, now, entry, at, d);
      }
    }
  }

  /** One applied row less, one more: the new one is of today. */
  lemma {:induction false} RevertCompensates(log: seq<Row>, now: int, entry: nat, at: int, d: int)
    requires Ordered(log, now) && now <= at && d >= Day(at)
    requires entry < |log| && log[entry].status == Applied && Compensated(log, d)
    ensures Compensated(Reverts(log, entry, at), d)
  {
    var marked := log[entry := log[entry].(status := Status.Reverted)];
    var r := Row(at, RevertOf(log[entry].action), Applied, Reverter);
    CountUpdate(log, entry, log[entry].(status := Status.Reverted), ChangeOn(d));
    CountUpdate(log, entry, log[entry].(status := Status.Reverted), AppliedSince(d));
    CountAppend(marked, r, ChangeOn(d));
    CountAppend(marked, r, AppliedSince(d));
    DayMonotone(log[entry].at, at);
    if d > Day(at) {
      DayMonotone(now, at);
      LaterDayEmpty(log, now, d);
    }
  }

  lemma {:induction false} RevertShape(cfg: Config, log: seq<Row>, now: int, entry: nat, at: int)
    requires Ordered(log, now) && Spaced(cfg, log) && now <= at
    requires entry < |log| && log[entry].status == Applied
    ensures Ordered(Reverts(log, entry, at), at) && Covered(Reverts(log, entry, at)) && Spaced(cfg, Reverts(log, entry, at))
  {
    var after := Reverts(log, entry, at);
    assert after[|log|] == Row(at, RevertOf(log[entry].action), Applied, Reverter);
    forall i | 0 <= i < |log|
      ensures after[i].at == log[i].at && (Change(after[i]) <==> Change(log[i]))
    {
    }
    forall i | 0 <= i < |after| && Change(after[i])
      ensures exists j :: 0 <= j < |after| && after[j].status == Applied && after[j].at >= after[i].at
    {
      assert after[|log|].status == Applied && after[|log|].at >= after[i].at;
    }
  }

  lemma {:induction false} StepKeeps(cfg: Config, log: seq<Row>, now: int, s: Step)
    requires Kept(cfg, log, now) && now <= Starts(s) && Timely(s)
    ensures Kept(cfg, Next(cfg, log, s), Finishes(s))
  {
    match s
    case Execute(p, clock) =>
      if Outcome(cfg, log, p, clock) == Applied {
        ChangeKeeps(cfg, log, now, p, clock);
      } else {
        AppendKeeps(cfg, log, now, Row(clock.logged, p.action, Outcome(cfg, log, p, clock), Enforcer));
      }
    case Revert(entry, at) => RevertKeeps(cfg, log, now, entry, at);
    case Note(at, action, status) => AppendKeeps(cfg, log, now, Row(at, action, status, Elsewhere));
  }

  lemma {:induction false} RunKeeps(cfg: Config, steps: seq<Step>)
    requires Monotone(steps) && steps != []
    ensures Kept(cfg, Run(cfg, steps), Finishes(steps[|steps| - 1]))
    decreases |steps|
  {
    var init, s := steps[..|steps| - 1], steps[|steps| - 1];
    if init == [] {
      assert Run(cfg, init) == [];
      assert Kept(cfg, [], Starts(s));
      StepKeeps(cfg, [], Starts(s), s);
    } else {
      RunKeeps(cfg, init);
      StepKeeps(cfg, Run(cfg, init), Finishes(init[|init| - 1]), s);
    }
  }

  // ------------------------------------------------------------------ how many fit in a day

  function Times(n: nat, x: real): real { if n == 0 then 0.0 else Times(n - 1, x) + x }

  lemma {:induction false} TimesIsProduct(n: nat, x: real)
    ensures Times(n, x) == Product(n as real, x)
  {
    if n == 0 {
    } else {
      TimesIsProduct(n - 1, x);
    }
  }

  /** Rows `first` to `last` are changes of one day that far apart. */
  ghost predicate Spans(log: seq<Row>, d: int, first: nat, last: nat, hours: real) {
    && first <= last < |log| && ChangeOn(d)(log[first]) && ChangeOn(d)(log[last])
    && Hours(log[last].at - log[first].at) >= hours
  }

  lemma {:induction false} SpansMore(cfg: Config, log: seq<Row>, d: int, first: nat, mid: nat, k: nat)
    requires Spaced(cfg, log) && k >= 1 && log != [] && ChangeOn(d)(log[|log| - 1])
    requires Spans(log[..|log| - 1], d, first, mid, Times(k - 1, cfg.minHours))
    ensures Spans(log, d, first, |log| - 1, Times(k, cfg.minHours))
  {
    var n := |log| - 1;
    assert log[..n][first] == log[first] && log[..n][mid] == log[mid];
    SpacedBy(cfg, log, mid, n);
    OneMoreSpan(log[first].at, log[mid].at, log[n].at, k, cfg.minHours);
  }

  lemma {:induction false} SpansStill(log: seq<Row>, n: nat, d: int, first: nat, last: nat, hours: real)
    requires n <= |log| && Spans(log[..n], d, first, last, hours)
    ensures Spans(log, d, first, last, hours)
  {
    assert log[..n][first] == log[first] && log[..n][last] == log[last];
  }

  /** k changes of one day span at least k − 1 cooldowns. */
  lemma {:induction false} ChangesSpan(cfg: Config, log: seq<Row>, now: int, d: int) returns (first: nat, last: nat)
    requires Ordered(log, now) && Spaced(cfg, log) && Count(log, ChangeOn(d)) >= 1
    ensures Spans(log, d, first, last, Times(Count(log, ChangeOn(d)) - 1, cfg.minHours))
    decreases |log|
  {
    var n := |log| - 1;
    InitSpaced(cfg, log, now);
    if !ChangeOn(d)(log[n]) {
      first, last := ChangesSpan(cfg, log[..n], now, d);
      SpansStill(log, n, d, first, last, Times(Count(log, ChangeOn(d)) - 1, cfg.minHours));
    } else if Count(log[..n], ChangeOn(d)) == 0 {
      first, last := n, n;
    } else {
      var mid;
      first, mid := ChangesSpan(cfg, log[..n], now, d);
      last := n;
      SpansMore(cfg, log, d, first, mid, Count(log[..n], ChangeOn(d)));
    }
  }

  lemma {:induction false} OneMoreSpan(s: int, t: int, u: int, k: nat, gap: real)
    requires k >= 1 && Hours(t - s) >= Times(k - 1, gap) && Hours(u - t) >= gap
    ensures Hours(u - s) >= Times(k, gap)
  {
    HoursAdd(s, t, u);
  }

  lemma {:induction false} InitSpaced(cfg: Config, log: seq<Row>, now: int)
    requires Ordered(log, now) && Spaced(cfg, log) && log != []
    ensures Ordered(log[..|log| - 1], now) && Spaced(cfg, log[..|log| - 1])
  {
  }

  lemma {:induction false} SpacedBy(cfg: Config, log: seq<Row>, i: nat, j: nat)
    requires Spaced(cfg, log) && i < j < |log| && Change(log[i]) && Change(log[j])
    ensures Hours(log[j].at - log[i].at) >= cfg.minHours
  {
  }

  lemma {:induction false} HoursAdd(s: int, t: int, u: int)
    ensures Hours(u - s) == Hours(t - s) + Hours(u - t)
  {
  }

  function Ceiling(x: real): int { -(-x).Floor }

  lemma {:induction false} KeptAtEnd(cfg: Config, steps: seq<Step>) returns (now: int)
    requires Monotone(steps)
    ensures Kept(cfg, Run(cfg, steps), now)
  {
    if steps == [] {
      now := 0;
      assert Run(cfg, steps) == [];
    } else {
      now := Finishes(steps[|steps| - 1]);
      RunKeeps(cfg, steps);
    }
  }

  lemma {:induction false} CooldownFits(cfg: Config, log: seq<Row>, now: int, d: int)
    requires Ordered(log, now) && Spaced(cfg, log) && cfg.minHours > 0.0
    ensures Count(log, ChangeOn(d)) <= Ceiling(24.0 / cfg.minHours)
  {
    var k := Count(log, ChangeOn(d));
    if k >= 1 {
      var first, last := ChangesSpan(cfg, log, now, d);
      SameDayWithin(log[first].at, log[last].at);
      FitsUnder(k - 1, cfg.minHours);
    } else {
      FitsUnder(0, cfg.minHours);
    }
  }

  /** Over every run that mixes enforcer changes, reverts and other rows: the changes the
      enforcer applied within one UTC day, later reverted ones included, number at most
      max_changes_per_day and, with a positive cooldown, at most ⌈24 / min_hours⌉. */
  lemma {:induction false} DailyBudget(cfg: Config, steps: seq<Step>, d: int)
    requires Monotone(steps)
    ensures Count(Run(cfg, steps), ChangeOn(d)) <= Cap(cfg.maxChanges)
    ensures cfg.minHours > 0.0 ==> Count(Run(cfg, steps), ChangeOn(d)) <= Ceiling(24.0 / cfg.minHours)
  {
    var now := KeptAtEnd(cfg, steps);
    if cfg.minHours > 0.0 { CooldownFits(cfg, Run(cfg, steps), now, d); }
  }

  lemma {:induction false} SameDayWithin(s: int, t: int)
    requires Day(s) == Day(t)
    ensures Hours(t - s) < 24.0
  {
  }

  lemma {:induction false} FitsUnder(n: nat, x: real)
    requires x > 0.0 && Times(n, x) < 24.0
    ensures n < Ceiling(24.0 / x)
  {
    var y := 24.0 / x;
    TimesIsProduct(n, x);
    assert Product(y, x) == 24.0;
    if n as real >= y {
      ProductMonotone(y, n as real, x);
    }
  }

  /** While a stop flag is set nothing is changed, whatever else happens; each attempt
      still leaves its row. */
  lemma {:induction false} StoppedChangesNothing(cfg: Config, steps: seq<Step>)
    requires forall i :: 0 <= i < |steps| ==> steps[i].Execute? && !steps[i].p.enabled
    ensures var log := Run(cfg, steps);
            |log| == |steps| && forall i :: 0 <= i < |log| ==> log[i].status == Blocked && !Change(log[i])
    decreases |steps|
  {
    if steps == [] {
    } else {
      StoppedChangesNothing(cfg, steps[..|steps| - 1]);
    }
  }

  // ------------------------------------------------------------------ sub-limits

  function Standing(a: Action, day: int): Row -> bool {
    (r: Row) => r.writer == Enforcer && r.action == a && r.status == Applied && Day(r.at) == day
  }

  function LimitOf(cfg: Config, a: Action): int { if a == RuleDisable then cfg.maxDisabled else cfg.maxEnabled }

  lemma {:induction false} StandingStep(cfg: Config, log: seq<Row>, now: int, s: Step, a: Action, d: int)
    requires a in {RuleDisable, RuleEnable} && Kept(cfg, log, now) && now <= Starts(s) && Timely(s)
    requires Count(log, Standing(a, d)) <= Cap(LimitOf(cfg, a))
    ensures Count(Next(cfg, log, s), Standing(a, d)) <= Cap(LimitOf(cfg, a))
  {
    match s
    case Execute(p, clock) =>
      var r := Row(clock.logged, p.action, Outcome(cfg, log, p, clock), Enforcer);
      CountAppend(log, r, Standing(a, d));
      if Standing(a, d)(r) { RoomForType(cfg, log, now, p, clock); }
    case Revert(entry, at) =>
      if entry < |log| && log[entry].status == Applied {
        CountUpdate(log, entry, log[entry].(status := Status.Reverted), Standing(a, d));
        CountAppend(log[entry := log[entry].(status := Status.Reverted)],
                    Row(at, RevertOf(log[entry].action), Applied, Reverter), Standing(a, d));
      }
    case Note(at, action, status) =>
      CountAppend(log, Row(at, action, status, Elsewhere), Standing(a, d));
  }

  lemma {:induction false} RoomForType(cfg: Config, log: seq<Row>, now: int, p: Proposal, clock: Clock)
    requires p.action in {RuleDisable, RuleEnable}
    requires Ordered(log, now) && now <= clock.counted && Timely(Execute(p, clock))
    requires Outcome(cfg, log, p, clock) == Applied
    ensures Count(log, Standing(p.action, Day(clock.logged))) < LimitOf(cfg, p.action)
  {
    DayMonotone(now, clock.counted);
    DayMonotone(clock.counted, clock.logged);
    var d := Day(clock.logged);
    if d > Day(clock.counted) {
      forall i | 0 <= i < |log| ensures !Standing(p.action, d)(log[i]) { DayMonotone(log[i].at, now); }
      CountNone(log, Standing(p.action, d));
    } else {
      CountImplies(log, Standing(p.action, d), AppliedOfType(p.action, d));
    }
  }

  /** The daily limit on rule disables (or enables) bounds those still standing. */
  lemma {:induction false} StandingWithinLimit(cfg: Config, steps: seq<Step>, a: Action, d: int)
    requires Monotone(steps) && a in {RuleDisable, RuleEnable}
    ensures Count(Run(cfg, steps), Standing(a, d)) <= Cap(LimitOf(cfg, a))
    decreases |steps|
  {
    if steps == [] {
    } else {
      var init, s := steps[..|steps| - 1], steps[|steps| - 1];
      StandingWithinLimit(cfg, init, a, d);
      if init == [] {
        StandingStep(cfg, [], Starts(s), s, a, d);
      } else {
        RunKeeps(cfg, init);
        StandingStep(cfg, Run(cfg, init), Finishes(init[|init| - 1]), s, a, d);
      }
    }
  }

  function MadeOn(a: Action, day: int): Row -> bool { (r: Row) => Change(r) && Day(r.at) == day && r.action == a }

  function Undone(a: Action, day: int): Row -> bool {
    (r: Row) => r.writer == Enforcer && r.action == a && r.status == Status.Reverted && Day(r.at) == day
  }

  lemma {:induction false} MadeSplits(log: seq<Row>, a: Action, d: int)
    ensures Count(log, MadeOn(a, d)) == Count(log, Standing(a, d)) + Count(log, Undone(a, d))
    decreases |log|
  {
    if log == [] {
    } else {
      MadeSplits(log[..|log| - 1], a, d);
    }
  }

  /** Disables made within a day exceed their limit by at most the number of them undone:
      unlike the budget, this limit is given back by a revert. */
  lemma {:induction false} MadeWithinLimitPlusUndone(cfg: Config, steps: seq<Step>, a: Action, d: int)
    requires Monotone(steps) && a in {RuleDisable, RuleEnable}
    ensures Count(Run(cfg, steps), MadeOn(a, d)) <= Cap(LimitOf(cfg, a)) + Count(Run(cfg, steps), Undone(a, d))
  {
    StandingWithinLimit(cfg, steps, a, d);
    MadeSplits(Run(cfg, steps), a, d);
  }

  /** Exactly which call takes the disables (or enables) made in a day past their limit: one
      that nothing else stops, made when the limit is used up but fewer than that many count
      as applied today. Within one day that takes a change already undone. */
  lemma {:induction false} SubLimitPassedIff(cfg: Config, log: seq<Row>, p: Proposal, clock: Clock)
    requires p.action in {RuleDisable, RuleEnable}
    ensures var a, d, limit := p.action, Day(clock.logged), LimitOf(cfg, p.action);
            var made := Count(log, MadeOn(a, d));
            var passed := made <= limit < Count(Executes(cfg, log, p, clock), MadeOn(a, d));
            && (passed <==>
                  && made == limit && Count(log, AppliedOfType(a, Day(clock.counted))) < limit
                  && Count(log, AppliedSince(Day(clock.checked))) < cfg.maxChanges
                  && !Cooling(cfg, LastApplied(log), clock.cooled)
                  && p.enabled && p.withinLimits && p.applies)
            && (passed && Day(clock.counted) == d ==> Count(log, Undone(a, d)) >= 1)
  {
    var a, d := p.action, Day(clock.logged);
    CountAppend(log, Row(clock.logged, a, Outcome(cfg, log, p, clock), Enforcer), MadeOn(a, d));
    MadeSplits(log, a, d);
    CountImplies(log, Standing(a, d), AppliedOfType(a, d));
  }

  /** One disable a day allowed, two made: the revert in between frees the limit. */
  lemma {:induction false} RevertFreesSubLimit(cfg: Config, t: int)
    requires cfg.maxChanges >= 3 && cfg.minHours <= 0.0 && cfg.maxDisabled == 1
    ensures var p, clock := Proposal(RuleDisable, true, true, true), Clock(t, t, t, t);
            var steps := [Execute(p, clock), Revert(0, t), Execute(p, clock)];
            Monotone(steps) && Count(Run(cfg, steps), MadeOn(RuleDisable, Day(t))) == 2
  {
    var p, clock := Proposal(RuleDisable, true, true, true), Clock(t, t, t, t);
    var a, b := Execute(p, clock), Revert(0, t);
    var made, undone, back := Row(t, RuleDisable, Applied, Enforcer), Row(t, RuleDisable, Status.Reverted, Enforcer),
                              Row(t, RevertOf(RuleDisable), Applied, Reverter);
    RunOfThree(cfg, a, b, a);
    assert Outcome(cfg, [], p, clock) == Applied;
    assert Next(cfg, [], a) == [] + [made] == [made];
    assert Reverts([made], 0, t) == [undone] + [back] == [undone, back];
    FreedAgain(cfg, t, p, clock);
    TwoMade(t, made, undone, back);
  }

  lemma {:induction false} RunOfThree(cfg: Config, a: Step, b: Step, c: Step)
    ensures Run(cfg, [a, b, c]) == Next(cfg, Next(cfg, Next(cfg, [], a), b), c)
  {
    assert [a, b, c][..2] == [a, b] && [a, b][..1] == [a] && [a][..0] == [];
    assert Run(cfg, [a]) == Next(cfg, [], a);
    assert Run(cfg, [a, b]) == Next(cfg, Run(cfg, [a]), b);
  }

  lemma {:induction false} TwoMade(t: int, made: Row, undone: Row, back: Row)
    requires MadeOn(RuleDisable, Day(t))(made) && MadeOn(RuleDisable, Day(t))(undone)
    requires !MadeOn(RuleDisable, Day(t))(back)
    ensures Count([undone, back] + [made], MadeOn(RuleDisable, Day(t))) == 2
  {
    assert [undone, back] == [undone] + [back] && [undone] == [] + [undone];
    CountAppend([undone, back], made, MadeOn(RuleDisable, Day(t)));
    CountAppend([undone], back, MadeOn(RuleDisable, Day(t)));
    CountAppend([], undone, MadeOn(RuleDisable, Day(t)));
  }

  lemma {:induction false} FreedAgain(cfg: Config, t: int, p: Proposal, clock: Clock)
    requires cfg.maxChanges >= 3 && cfg.minHours <= 0.0 && cfg.maxDisabled == 1
    requires p == Proposal(RuleDisable, true, true, true) && clock == Clock(t, t, t, t)
    ensures var undone, back := Row(t, RuleDisable, Status.Reverted, Enforcer),
                                Row(t, RevertOf(RuleDisable), Applied, Reverter);
            Outcome(cfg, [undone, back], p, clock) == Applied
  {
    var undone, back := Row(t, RuleDisable, Status.Reverted, Enforcer), Row(t, RevertOf(RuleDisable), Applied, Reverter);
    assert [undone, back] == [undone] + [back] && [undone] == [] + [undone];
    CountAppend([undone], back, AppliedSince(Day(t)));
    CountAppend([], undone, AppliedSince(Day(t)));
    CountAppend([undone], back, AppliedOfType(RuleDisable, Day(t)));
    CountAppend([], undone, AppliedOfType(RuleDisable, Day(t)));
    assert [undone, back][..1] == [undone] && [undone][..0] == [];
    assert LastApplied([undone]) == None;
    assert LastApplied([undone, back]) == Some(t);
  }

  // ------------------------------------------------------------------ what a call decides

  const DAY_MICROS: int := 86400000000

  /** Places of the applied rows from the UTC day of `now` on, of one action or of all. */
  ghost function AppliedToday(log: seq<Row>, now: int, action: Option<Action>): set<nat> {
    set i: nat | i < |log| && log[i].status == Applied && log[i].at >= now - now % DAY_MICROS
      && (action.Some? ==> log[i].action == action.value)
  }

  ghost function Places(log: seq<Row>, p: Row -> bool): set<nat> { set i: nat | i < |log| && p(log[i]) }

  lemma {:induction false} CountIsSize(log: seq<Row>, p: Row -> bool)
    ensures Count(log, p) == |Places(log, p)|
    decreases |log|
  {
    if log == [] {
      assert Places(log, p) == {};
    } else {
      var n := |log| - 1;
      CountIsSize(log[..n], p);
      var before, now := Places(log[..n], p), Places(log, p);
      assert now == if p(log[n]) then before + {n} else before;
    }
  }

  lemma {:induction false} SameOrLaterDay(at: int, now: int)
    ensures Day(at) >= Day(now) <==> at >= now - now % DAY_MICROS
  {
  }

  lemma {:induction false} AppliedTodayCounted(log: seq<Row>, now: int)
    ensures |AppliedToday(log, now, None)| == Count(log, AppliedSince(Day(now)))
  {
    CountIsSize(log, AppliedSince(Day(now)));
    forall i: nat | i < |log| ensures Day(log[i].at) >= Day(now) <==> log[i].at >= now - now % DAY_MICROS {
      SameOrLaterDay(log[i].at, now);
    }
    assert AppliedToday(log, now, None) == Places(log, AppliedSince(Day(now)));
  }

  lemma {:induction false} AppliedOfTypeCounted(log: seq<Row>, now: int, a: Action)
    ensures |AppliedToday(log, now, Some(a))| == Count(log, AppliedOfType(a, Day(now)))
  {
    CountIsSize(log, AppliedOfType(a, Day(now)));
    forall i: nat | i < |log| ensures Day(log[i].at) >= Day(now) <==> log[i].at >= now - now % DAY_MICROS {
      SameOrLaterDay(log[i].at, now);
    }
    assert AppliedToday(log, now, Some(a)) == Places(log, AppliedOfType(a, Day(now)));
  }

  /** Every applied row is at least so many hours old. */
  ghost predicate AllRested(log: seq<Row>, now: int, hours: real) {
    forall i :: 0 <= i < |log| && log[i].status == Applied ==> (now - log[i].at) as real >= hours * 3600000000.0
  }

  lemma {:induction false} LastAppliedOccurs(log: seq<Row>) returns (i: nat)
    requires LastApplied(log).Some?
    ensures i < |log| && log[i].status == Applied && log[i].at == LastApplied(log).value
    decreases |log|
  {
    var n := |log| - 1;
    if log[n].status == Applied && LastApplied(log) == Some(log[n].at) {
      i := n;
    } else {
      i := LastAppliedOccurs(log[..n]);
    }
  }

  lemma {:induction false} HoursAtLeast(span: int, hours: real)
    ensures Hours(span) >= hours <==> span as real >= hours * 3600000000.0
  {
    var q := Hours(span);
    assert Product(q, 3600000000.0) == span as real;
    if q < hours { ProductStrict(q, hours, 3600000000.0); } else { ProductMonotone(hours, q, 3600000000.0); }
  }

  lemma {:induction false} RestedIff(cfg: Config, log: seq<Row>, now: int)
    ensures !Cooling(cfg, LastApplied(log), now) <==> AllRested(log, now, cfg.minHours)
  {
    if LastApplied(log).Some? {
      var k := LastAppliedOccurs(log);
      HoursAtLeast(now - log[k].at, cfg.minHours);
    }
    forall i | 0 <= i < |log| && log[i].status == Applied
      ensures LastApplied(log).Some? && LastApplied(log).value >= log[i].at
    {
      LastAppliedIsLatest(log, i);
    }
  }

  /** The limit on rule disables or enables has room for one more; other actions have none. */
  ghost predicate RoomForAction(cfg: Config, log: seq<Row>, a: Action, now: int) {
    && (a == RuleDisable ==> |AppliedToday(log, now, Some(a))| < cfg.maxDisabled)
    && (a == RuleEnable ==> |AppliedToday(log, now, Some(a))| < cfg.maxEnabled)
  }

  /** The guard lets a proposal through exactly when no stop flag is set, fewer applied rows
      than the daily maximum are of today, all applied rows have rested for the cooldown, the
      limit of its action has room and its own limits pass. What then happens is logged as
      applied or failed, everything else as blocked. */
  lemma {:induction false} DecidedIff(cfg: Config, log: seq<Row>, p: Proposal, clock: Clock)
    ensures var allowed :=
              && p.enabled && p.withinLimits && |AppliedToday(log, clock.checked, None)| < cfg.maxChanges
              && AllRested(log, clock.cooled, cfg.minHours) && RoomForAction(cfg, log, p.action, clock.counted);
            var after := Executes(cfg, log, p, clock);
            && |after| == |log| + 1 && after[..|log|] == log
            && after[|log|].at == clock.logged && after[|log|].action == p.action
            && (after[|log|].status == Applied <==> allowed && p.applies)
            && (after[|log|].status == Failed <==> allowed && !p.applies)
            && (after[|log|].status == Blocked <==> !allowed)
  {
    AppliedTodayCounted(log, clock.checked);
    AppliedOfTypeCounted(log, clock.counted, p.action);
    RestedIff(cfg, log, clock.cooled);
  }

  /** A revert of an applied entry marks it, leaves every other row and adds one applied row
      that undoes its action; a revert of anything else leaves the log as it is. */
  lemma {:induction false} RevertedIs(log: seq<Row>, entry: nat, now: int)
    ensures var after := Reverts(log, entry, now);
            if entry < |log| && log[entry].status == Applied then
              && |after| == |log| + 1
              && after[entry] == Row(log[entry].at, log[entry].action, Status.Reverted, log[entry].writer)
              && (forall i :: 0 <= i < |log| && i != entry ==> after[i] == log[i])
              && after[|log|].at == now && after[|log|].action == RevertOf(log[entry].action)
              && after[|log|].status == Applied
            else after == log
  {
  }
}
