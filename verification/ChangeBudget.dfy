/** The AI change budget over its audit log: `GuardrailEnforcer` of
    `backend/ai_guardrails.py`. */
module ChangeBudget {
  import opened Options

  /** Times are UTC microseconds. */
  const HOUR := 3600000000
  const DAY := 24 * HOUR

  function Day(t: int): int { t / DAY }

  function Hours(t: int): real { t as real / 3600000000.0 }

  datatype Action = RuleDisable | RuleEnable | Other(name: string) | RevertOf(reverted: Action)

  datatype Status = Applied | Blocked | Failed | Reverted

  /** Who wrote the row: the table does not say, the properties do. */
  datatype Writer = Enforcer | Reverter | Elsewhere

  datatype Row = Row(at: int, action: Action, status: Status, writer: Writer)

  datatype Config = Config(maxChanges: int, minHours: real, maxDisabled: int, maxEnabled: int)

  /** Clock readings of one `execute_with_audit` call, in the order they are taken. */
  datatype Clock = Clock(counted: int, checked: int, cooled: int, logged: int)

  /** A proposed change. `enabled` says that no stop flag is set, `withinLimits` that the
      limits on its size and the oscillation rule pass, `applies` that applying it does not
      raise. */
  datatype Proposal = Proposal(action: Action, enabled: bool, withinLimits: bool, applies: bool)

  function Count(log: seq<Row>, p: Row -> bool): nat
    decreases |log|
  {
    if log == [] then 0 else Count(log[..|log| - 1], p) + if p(log[|log| - 1]) then 1 else 0
  }

  function AppliedSince(day: int): Row -> bool { (r: Row) => r.status == Applied && Day(r.at) >= day }

  function AppliedOfType(
      a: Action, day: int): Row -> bool { (r: Row) => r.status == Applied && r.action == a && Day(r.at) >= day }

  /** `_last_change_at`. */
  function LastApplied(log: seq<Row>): Option<int>
    decreases |log|
  {
    if log == [] then None
    else
      var before, r := LastApplied(log[..|log| - 1]), log[|log| - 1];
      if r.status == Applied && (before.None? || r.at > before.value) then Some(r.at) else before
  }

  function Cooling(cfg: Config, last: Option<int>, now: int): bool {
    last.Some? && Hours(now - last.value) < cfg.minHours
  }

  /** `_check_action_limits`, with `today` the count of this action type. */
  predicate ActionLimits(cfg: Config, p: Proposal, today: nat) {
    match p.action
    case RuleDisable => today < cfg.maxDisabled && p.withinLimits
    case RuleEnable => today < cfg.maxEnabled && p.withinLimits
    case _ => p.withinLimits
  }

  /** `can_execute`. */
  predicate CanExecute(cfg: Config, log: seq<Row>, p: Proposal, today: nat, clock: Clock) {
    && p.enabled
    && Count(log, AppliedSince(Day(clock.checked))) < cfg.maxChanges
    && !Cooling(cfg, LastApplied(log), clock.cooled)
    && ActionLimits(cfg, p, today)
  }

  function Outcome(cfg: Config, log: seq<Row>, p: Proposal, clock: Clock): Status {
    var today := Count(log, AppliedOfType(p.action, Day(clock.counted)));
    if !CanExecute(cfg, log, p, today, clock) then Blocked else if p.applies then Applied else Failed
  }

  /** The log after `execute_with_audit`. */
  function Executes(cfg: Config, log: seq<Row>, p: Proposal, clock: Clock): seq<Row> {
    log + [Row(clock.logged, p.action, Outcome(cfg, log, p, clock), Enforcer)]
  }

  /** The log after `revert_action`. */
  function Reverts(log: seq<Row>, entry: nat, now: int): seq<Row> {
    if entry >= |log| || log[entry].status != Applied then log
    else
      log[entry := log[entry].(status := Status.Reverted)]
      + [Row(now, RevertOf(log[entry].action), Applied, Reverter)]
  }

  class GuardrailEnforcer {
    const config: Config
    var log: seq<Row>

    constructor (config: Config)
      ensures this.config == config && log == []
    {
      this.config := config;
      log := [];
    }

    method LogAiAction(now: int, action: Action, status: Status, writer: Writer) returns (id: nat)
      modifies this`log
      ensures id == old(|log|) && log == old(log) + [Row(now, action, status, writer)]
    {
      id := |log|;
      log := log + [Row(now, action, status, writer)];
    }

    method CheckExecute(p: Proposal, today: nat, clock: Clock) returns (allowed: bool)
      ensures allowed == CanExecute(config, log, p, today, clock)
    {
      if !p.enabled { return false; }
      var count := Count(log, AppliedSince(Day(clock.checked)));
      if count >= config.maxChanges { return false; }
      var last := LastApplied(log);
      if last.Some? {
        if Hours(clock.cooled - last.value) < config.minHours { return false; }
      }
      return ActionLimits(config, p, today);
    }

    method ExecuteWithAudit(p: Proposal, clock: Clock) returns (applied: bool)
      modifies this`log
      ensures log == Executes(config, old(log), p, clock)
      ensures applied <==> Outcome(config, old(log), p, clock) == Applied
    {
      var today := Count(log, AppliedOfType(p.action, Day(clock.counted)));
      var allowed := CheckExecute(p, today, clock);
      if !allowed {
        var _ := LogAiAction(clock.logged, p.action, Blocked, Enforcer);
        return false;
      }
      if !p.applies {
        var _ := LogAiAction(clock.logged, p.action, Failed, Enforcer);
        return false;
      }
      var _ := LogAiAction(clock.logged, p.action, Applied, Enforcer);
      return true;
    }

    method RevertAction(entry: nat, now: int) returns (reverted: bool)
      modifies this`log
      ensures log == Reverts(old(log), entry, now)
      ensures reverted <==> entry < |old(log)| && old(log)[entry].status == Applied
    {
      if entry >= |log| { return false; }
      if log[entry].status == Status.Reverted { return false; }
      if log[entry].status != Applied { return false; }
      var action := log[entry].action;
      log := log[entry := log[entry].(status := Status.Reverted)];
      var _ := LogAiAction(now, RevertOf(action), Applied, Reverter);
      return true;
    }
  }
}
