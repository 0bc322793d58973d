/** Per-rule statistics and position sizes: `backend/position_sizing.py`. */
module Sizing {
  import opened Money
  import opened Rounding

  datatype RuleId = RuleId(id: string)

  datatype RuleStats = RuleStats(
    totalTrades: nat, winners: nat, totalPnl: real, totalWinPnl: real, totalLossPnl: real,
    maxDrawdown: real, peakEquity: real, currentEquity: real, rMultiples: seq<real>)

  const NO_TRADES := RuleStats(0, 0, 0.0, 0.0, 0.0, 0.0, 0.0, 0.0, [])

  /** The statistics after one completed trade. */
  function Recorded(s: RuleStats, pnl: real, riskAmount: real): RuleStats {
    var equity := s.currentEquity + pnl;
    var peak := Max(s.peakEquity, equity);
    RuleStats(
      s.totalTrades + 1,
      if pnl > 0.0 then s.winners + 1 else s.winners,
      s.totalPnl + pnl,
      if pnl > 0.0 then s.totalWinPnl + pnl else s.totalWinPnl,
      if pnl > 0.0 then s.totalLossPnl else s.totalLossPnl + pnl,
      Max(s.maxDrawdown, peak - equity), peak, equity,
      s.rMultiples + [Round2(if riskAmount > 0.0 then Quotient(pnl, riskAmount) else 0.0)])
  }

  function WinRate(s: RuleStats): real {
    if s.totalTrades > 0 then Quotient(s.winners as real, s.totalTrades as real) else 0.0
  }

  function Average(total: real, n: int): real { if n > 0 then Quotient(total, n as real) else 0.0 }

  function KellyFraction(s: RuleStats): (k: real)
    ensures 0.0 <= k <= 0.25
  {
    var w := WinRate(s);
    var avgLoss := Average(s.totalLossPnl, s.totalTrades - s.winners);
    var r := if avgLoss != 0.0 then Magnitude(Quotient(Average(s.totalWinPnl, s.winners), avgLoss)) else 1.5;
    if r == 0.0 then 0.0 else Max(0.0, Min(w - Quotient(1.0 - w, r), 0.25))
  }

  datatype Sizer = Sizer(baseRiskPct: real, minRiskPct: real, maxRiskPct: real, maxPositionPct: real)

  /** Percent of equity at risk, before the regime multiplier. */
  function RiskPct(z: Sizer, s: RuleStats): real {
    var adapted :=
      if s.totalTrades < 10 then z.baseRiskPct
      else
        var boosted := Product(z.baseRiskPct, 1.0 + KellyFraction(s));
        if WinRate(s) < 0.35 then boosted * 0.5 else boosted;
    Max(z.minRiskPct, Min(z.maxRiskPct, adapted))
  }

  function Floor(x: real): int { x.Floor }

  /** Whole shares within a risk amount (less one dollar of commission) and a value cap. */
  function Shares(risk: real, stopDistance: real, cap: real, entry: real): int
    requires stopDistance > 0.0 && entry > 0.0
  {
    var byRisk, byCap := Floor(Quotient(risk - 1.0, stopDistance)), Floor(Quotient(cap, entry));
    var n := if byRisk <= byCap then byRisk else byCap;
    if n >= 0 then n else 0
  }

  datatype Size = Skip | Size(shares: int, value: real, riskPct: real, riskAmount: real)

  function SizeFor(z: Sizer, s: RuleStats, entry: real, stop: real, equity: real, regime: real): Size {
    var distance := Magnitude(entry - stop);
    if distance <= 0.0 || entry <= 0.0 || equity <= 0.0 then Skip
    else
      var riskPct := Product(RiskPct(z, s), regime);
      var shares := Shares(Product(equity, riskPct / 100.0), distance, Product(equity, z.maxPositionPct / 100.0), entry);
      Size(shares, Round2(Product(shares as real, entry)), Round2(riskPct), Round2(Product(shares as real, distance)))
  }

  class AdaptiveSizer {
    const config: Sizer
    var ruleStats: map<RuleId, RuleStats>

    ghost function StatsOf(rule: RuleId): RuleStats
      reads this
    {
      if rule in ruleStats then ruleStats[rule] else NO_TRADES
    }

    constructor (config: Sizer)
      ensures this.config == config && ruleStats == map[]
    {
      this.config := config;
      ruleStats := map[];
    }

    method GetStats(rule: RuleId) returns (s: RuleStats)
      modifies this`ruleStats
      ensures s == old(StatsOf(rule)) && ruleStats == old(ruleStats)[rule := s]
    {
      if rule !in ruleStats { ruleStats := ruleStats[rule := NO_TRADES]; }
      s := ruleStats[rule];
      assert ruleStats == ruleStats[rule := s];
    }

    method RecordTrade(rule: RuleId, pnl: real, riskAmount: real)
      modifies this`ruleStats
      ensures ruleStats == old(ruleStats)[rule := Recorded(old(StatsOf(rule)), pnl, riskAmount)]
    {
      var s := GetStats(rule);
      s := s.(totalTrades := s.totalTrades + 1, totalPnl := s.totalPnl + pnl);
      if pnl > 0.0 {
        s := s.(winners := s.winners + 1, totalWinPnl := s.totalWinPnl + pnl);
      } else {
        s := s.(totalLossPnl := s.totalLossPnl + pnl);
      }
      var r := if riskAmount > 0.0 then Quotient(pnl, riskAmount) else 0.0;
      s := s.(rMultiples := s.rMultiples + [Round2(r)], currentEquity := s.currentEquity + pnl);
      if s.currentEquity > s.peakEquity { s := s.(peakEquity := s.currentEquity); }
      var dd := s.peakEquity - s.currentEquity;
      if dd > s.maxDrawdown { s := s.(maxDrawdown := dd); }
      ruleStats := ruleStats[rule := s];
    }

    method CalculateSize(rule: RuleId, entry: real, stop: real, equity: real, regime: real) returns (size: Size)
      modifies this`ruleStats
      ensures size == SizeFor(config, old(StatsOf(rule)), entry, stop, equity, regime)
      ensures ruleStats == old(ruleStats)[rule := old(StatsOf(rule))]
    {
      var s := GetStats(rule);
      var distance := Magnitude(entry - stop);
      if distance <= 0.0 || entry <= 0.0 || equity <= 0.0 { return Skip; }
      var riskPct: real;
      if s.totalTrades >= 10 {
        riskPct := Product(config.baseRiskPct, 1.0 + KellyFraction(s));
        if WinRate(s) < 0.35 { riskPct := riskPct * 0.5; }
      } else {
        riskPct := config.baseRiskPct;
      }
      riskPct := Max(config.minRiskPct, Min(config.maxRiskPct, riskPct));
      riskPct := Product(riskPct, regime);
      var riskAmount := Product(equity, riskPct / 100.0);
      var shares := Floor(Quotient(riskAmount - 1.0, distance));
      var maxShares := Floor(Quotient(Product(equity, config.maxPositionPct / 100.0), entry));
      if maxShares < shares { shares := maxShares; }
      if shares < 0 { shares := 0; }
      return Size(shares, Round2(Product(shares as real, entry)), Round2(riskPct), Round2(Product(shares as real, distance)));
    }
  }
}
