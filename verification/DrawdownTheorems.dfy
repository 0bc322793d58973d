/** What the one-pass figures mean. */
module DrawdownTheorems {
  import opened Money
  import opened Options
  import opened Rounding
  import opened Drawdown
  import Sizing

  // ------------------------------------------------------------------ relative drawdown

  /** The running peak is the largest value, and its index the first at which it occurs. */
  lemma {:induction false} PeakIsFirstMaximum(values: seq<real>)
    requires values != []
    ensures var p := OnePass(values);
            && p.start < |values| && values[p.start] == p.peak
            && (forall i :: 0 <= i < |values| ==> values[i] <= p.peak)
            && (forall i :: 0 <= i < p.start ==> values[i] < p.peak)
    decreases |values|
  {
    var n := |values| - 1;
    if n == 0 {
    } else {
      PeakIsFirstMaximum(values[..n]);
    }
  }

  lemma {:induction false} DivideAtMost(x: real, y: real, c: real)
    requires y > 0.0 && x <= Product(c, y)
    ensures x / y <= c
  {
    var q := x / y;
    assert Product(q, y) == x;
    if q > c { ProductStrict(c, q, y); }
  }

  lemma {:induction false} DivideMoreThan(x: real, y: real, c: real)
    requires y > 0.0 && x > Product(c, y)
    ensures x / y > c
  {
    var q := x / y;
    assert Product(q, y) == x;
    if q < c { ProductStrict(q, c, y); }
  }

  lemma {:induction false} FallForm(peak: real, v: real)
    requires peak > 0.0
    ensures Fall(peak, v) == 1.0 - v / peak
  {
    assert (peak - v) / peak == peak / peak - v / peak;
  }

  /** A higher peak falls further to the same value, when that value is not negative. */
  lemma {:induction false} FallGrowsWithPeak(a: real, b: real, v: real)
    requires 0.0 < a <= b && v >= 0.0
    ensures Fall(a, v) <= Fall(b, v)
  {
    FallForm(a, v);
    FallForm(b, v);
    var q := v / a;
    assert q * a == v && q >= 0.0;
    if a < b && q > 0.0 { ProductStrict(a, b, q); }
    DivideAtMost(v, b, q);
  }

  ghost predicate NonNegative(values: seq<real>) { forall i :: 0 <= i < |values| ==> values[i] >= 0.0 }

  /** No fall to a value that is not negative is further than the recorded depth. */
  lemma {:induction false} NoPairFallsFurther(values: seq<real>, i: nat, j: nat)
    requires i <= j < |values| && values[j] >= 0.0
    ensures Fall(values[i], values[j]) <= OnePass(values).deepest
    decreases |values|
  {
    var n := |values| - 1;
    if n == 0 {
    } else {
      if j < n {
        NoPairFallsFurther(values[..n], i, j);
      } else {
        PeakIsFirstMaximum(values);
        DepthNotNegative(values);
        if values[i] > 0.0 { FallGrowsWithPeak(values[i], OnePass(values).peak, values[n]); }
      }
    }
  }

  /** The recorded peak and trough are a pair that falls exactly that far. */
  lemma {:induction false} RecordedPairAttains(values: seq<real>) returns (i: nat, j: nat)
    requires values != []
    ensures i <= j < |values| && values[i] == OnePass(values).from && values[j] == OnePass(values).to
    ensures Fall(values[i], values[j]) == OnePass(values).deepest
    decreases |values|
  {
    var n := |values| - 1;
    if n == 0 {
      i, j := 0, 0;
    } else if Fall(OnePass(values).peak, values[n]) > OnePass(values[..n]).deepest {
      PeakIsFirstMaximum(values);
      i, j := OnePass(values).start, n;
    } else {
      i, j := RecordedPairAttains(values[..n]);
    }
  }

  /** On equity that is never negative the one-pass drawdown is the maximum over all pairs
      of an earlier and a later value, and the recorded peak and trough attain it. */
  lemma {:induction false} DrawdownIsMaxOverPairs(values: seq<real>)
    requires values != [] && NonNegative(values)
    ensures forall i, j :: 0 <= i <= j < |values| ==> Fall(values[i], values[j]) <= OnePass(values).deepest
    ensures exists i, j :: 0 <= i <= j < |values| && Fall(values[i], values[j]) == OnePass(values).deepest
              && values[i] == OnePass(values).from && values[j] == OnePass(values).to
  {
    forall i, j | 0 <= i <= j < |values| ensures Fall(values[i], values[j]) <= OnePass(values).deepest {
      NoPairFallsFurther(values, i, j);
    }
    var i, j := RecordedPairAttains(values);
  }

  /** On negative equity that fails. Where the last value sets the recorded depth, some pair
      that ends there falls further exactly when that value is negative and an earlier one
      was positive and below the peak: below zero the smaller base gives the larger fall. */
  lemma {:induction false} NegativeEquityUnderstated(values: seq<real>)
    requires values != [] && Fall(OnePass(values).peak, values[|values| - 1]) == OnePass(values).deepest
    ensures var p, n := OnePass(values), |values| - 1;
            (exists i :: 0 <= i < n && Fall(values[i], values[n]) > p.deepest)
            <==> values[n] < 0.0 && exists i :: 0 <= i < n && 0.0 < values[i] < p.peak
  {
    var p, n := OnePass(values), |values| - 1;
    PeakIsFirstMaximum(values);
    DepthNotNegative(values);
    if i :| 0 <= i < n && Fall(values[i], values[n]) > p.deepest {
      if values[n] >= 0.0 { FallGrowsWithPeak(values[i], p.peak, values[n]); }
    }
    if values[n] < 0.0 {
      forall i | 0 <= i < n && 0.0 < values[i] < p.peak ensures Fall(values[i], values[n]) > p.deepest {
        FallsLess(values[i], p.peak, values[n]);
      }
    }
  }

  /** The smallest positive value so far, if there is one. */
  function LeastPositive(values: seq<real>): Option<real>
    decreases |values|
  {
    if values == [] then None
    else
      var least, v := LeastPositive(values[..|values| - 1]), values[|values| - 1];
      if v > 0.0 && (least.None? || v < least.value) then Some(v) else least
  }

  lemma {:induction false} LeastPositiveIsLeast(values: seq<real>, i: nat)
    requires i < |values| && values[i] > 0.0
    ensures LeastPositive(values).Some? && 0.0 < LeastPositive(values).value <= values[i]
    ensures LeastPositive(values).value in values
    decreases |values|
  {
    var n := |values| - 1;
    if i < n {
      LeastPositiveIsLeast(values[..n], i);
    } else if LeastPositive(values[..n]).Some? {
      LeastPositiveOccurs(values[..n]);
    }
  }

  lemma {:induction false} LeastPositiveOccurs(values: seq<real>)
    requires LeastPositive(values).Some?
    ensures LeastPositive(values).value > 0.0 && LeastPositive(values).value in values
    decreases |values|
  {
    var n := |values| - 1;
    if LeastPositive(values[..n]).Some? { LeastPositiveOccurs(values[..n]); }
  }

  /** A negative value against the smallest positive one before it falls beyond the depth. */
  ghost predicate BeyondDepth(values: seq<real>, j: nat)
    requires j < |values|
  {
    && values[j] < 0.0 && LeastPositive(values[..j]).Some?
    && Fall(LeastPositive(values[..j]).value, values[j]) > OnePass(values).deepest
  }

  lemma {:induction false} FurtherIsBeyond(values: seq<real>, i: nat, j: nat)
    requires i <= j < |values| && Fall(values[i], values[j]) > OnePass(values).deepest
    ensures BeyondDepth(values, j)
  {
    DepthNotNegative(values);
    if values[j] >= 0.0 {
      NoPairFallsFurther(values, i, j);
    } else {
      LeastPositiveIsLeast(values[..j], i);
      var least := LeastPositive(values[..j]).value;
      if least < values[i] { FallsLess(least, values[i], values[j]); }
    }
  }

  /** Exactly on which lists the one-pass figure is not the maximum over all pairs: one
      comparison for each negative value, with the smallest positive value before it. */
  lemma {:induction false} UnderstatedIff(values: seq<real>)
    requires values != []
    ensures (exists i, j :: 0 <= i <= j < |values| && Fall(values[i], values[j]) > OnePass(values).deepest)
            <==> exists j :: 0 <= j < |values| && BeyondDepth(values, j)
  {
    if i, j :| 0 <= i <= j < |values| && Fall(values[i], values[j]) > OnePass(values).deepest {
      FurtherIsBeyond(values, i, j);
    }
    if j :| 0 <= j < |values| && BeyondDepth(values, j) {
      LeastPositiveOccurs(values[..j]);
      var i :| 0 <= i < j && values[..j][i] == LeastPositive(values[..j]).value;
      assert Fall(values[i], values[j]) > OnePass(values).deepest;
    }
  }

  /** A negative number is nearer to zero in units of a larger base. */
  lemma {:induction false} QuotientRises(a: real, b: real, v: real)
    requires 0.0 < a < b && v < 0.0
    ensures v / a < v / b < 0.0
  {
    var p, q := v / a, v / b;
    assert Product(p, a) == v && Product(q, b) == v;
    ProductCancels(q, 0.0, b);
    ProductStrict(a, b, -q);
    assert Product(q, a) == -Product(a, -q) && Product(q, b) == -Product(b, -q);
    ProductCancels(p, q, a);
  }

  lemma {:induction false} FallsLess(a: real, b: real, v: real)
    requires 0.0 < a < b && v < 0.0
    ensures 0.0 < Fall(b, v) < Fall(a, v)
  {
    FallForm(a, v);
    FallForm(b, v);
    QuotientRises(a, b, v);
  }

  /** The current fall is never more than the deepest. */
  lemma {:induction false} CurrentWithinDeepest(values: seq<real>)
    requires values != []
    ensures Fall(OnePass(values).peak, values[|values| - 1]) <= OnePass(values).deepest
  {
    var n := |values| - 1;
    if n > 0 { assert OnePass(values) == Advance(OnePass(values[..n]), n, values[n]); }
  }

  /** The status: the current figure never exceeds the maximum, even rounded, and the
      duration counts from the first day of the overall peak. */
  lemma {:induction false} StatusIsConsistent(values: seq<real>)
    requires values != []
    ensures var s := StatusOf(values);
            && s.currentPct <= s.maxPct && 1 <= s.duration <= |values|
            && (forall i :: 0 <= i < |values| ==> values[i] <= values[|values| - s.duration])
            && (forall i :: 0 <= i < |values| - s.duration ==> values[i] < values[|values| - s.duration])
  {
    var p := OnePass(values);
    PeakIsFirstMaximum(values);
    CurrentWithinDeepest(values);
    var x, y := Fall(p.peak, values[|values| - 1]) * 100.0, p.deepest * 100.0;
    RoundIntMonotone(x * 100.0, y * 100.0);
  }

  /** Rounded percent of a fall, and none from a peak that is not positive. */
  function FallPct(peak: real, v: real): real {
    if peak > 0.0 then Round2(100.0 * (peak - v) / peak) else 0.0
  }

  lemma {:induction false} FallPctIs(peak: real, v: real)
    ensures Round2(Fall(peak, v) * 100.0) == FallPct(peak, v)
  {
    if peak > 0.0 {
      assert (peak - v) / peak * 100.0 == 100.0 * (peak - v) / peak;
    } else {
      assert Round2(0.0) == 0.0;
    }
  }

  /** The status in terms of the values: the current figure is the fall from the highest value
      to the last, the duration counts from its first day, and peak and trough are a pair that
      falls by the maximum. */
  lemma {:induction false} StatusMeans(values: seq<real>, top: nat)
    requires top < |values|
    requires forall i :: 0 <= i < |values| ==> values[i] <= values[top]
    requires forall i :: 0 <= i < top ==> values[i] < values[top]
    ensures var s := StatusOf(values);
            && s.currentPct == FallPct(values[top], values[|values| - 1]) && s.duration == |values| - top
            && !s.breached
            && exists i, j :: 0 <= i <= j < |values| && s.peak == Round2(values[i]) && s.trough == Round2(values[j])
                 && s.maxPct == FallPct(values[i], values[j])
  {
    PeakIsFirstMaximum(values);
    var p := OnePass(values);
    assert p.start == top;
    FallPctIs(values[top], values[|values| - 1]);
    var i, j := RecordedPairAttains(values);
    FallPctIs(values[i], values[j]);
  }

  /** Drawdown of a P&L list: over the curve that starts at zero, it is the maximum over all
      pairs as long as the curve stays at or above zero. */
  lemma {:induction false} PnlDrawdownIsMaxOverPairs(pnls: seq<real>)
    requires NonNegative(Curve(pnls))
    ensures forall i, j :: 0 <= i <= j <= |pnls| ==>
              Fall(Sum(pnls[..i]), Sum(pnls[..j])) <= OnePass(Curve(pnls)).deepest
    ensures exists i, j :: 0 <= i <= j <= |pnls|
              && Fall(Sum(pnls[..i]), Sum(pnls[..j])) == OnePass(Curve(pnls)).deepest
  {
    forall i, j | 0 <= i <= j <= |pnls|
      ensures Fall(Sum(pnls[..i]), Sum(pnls[..j])) <= OnePass(Curve(pnls)).deepest
    {
      NoPairFallsFurther(Curve(pnls), i, j);
      CurveAt(pnls, i);
      CurveAt(pnls, j);
    }
    var i, j := RecordedPairAttains(Curve(pnls));
    CurveAt(pnls, i);
    CurveAt(pnls, j);
  }

  // ------------------------------------------------------------------ the sizer's statistics

  /** P&L and risk amount of one completed trade. */
  datatype Trade = Trade(pnl: real, risk: real)

  function StatsAfter(trades: seq<Trade>): Sizing.RuleStats
    decreases |trades|
  {
    if trades == [] then Sizing.NO_TRADES
    else Sizing.Recorded(StatsAfter(trades[..|trades| - 1]), trades[|trades| - 1].pnl, trades[|trades| - 1].risk)
  }

  /** Equity of the rule after the first k trades, from zero. */
  function Equity(trades: seq<Trade>, k: nat): real
    requires k <= |trades|
    decreases k
  {
    if k == 0 then 0.0 else Equity(trades, k - 1) + trades[k - 1].pnl
  }

  lemma {:induction false} EquityPrefix(trades: seq<Trade>, n: nat, k: nat)
    requires k <= n <= |trades|
    ensures Equity(trades[..n], k) == Equity(trades, k)
    decreases k
  {
    if k == 0 {
    } else {
      EquityPrefix(trades, n, k - 1);
    }
  }

  /** Peak and current equity are those of the curve. */
  lemma {:induction false} StatsFollowCurve(trades: seq<Trade>)
    ensures StatsAfter(trades).currentEquity == Equity(trades, |trades|)
    ensures forall k :: 0 <= k <= |trades| ==> Equity(trades, k) <= StatsAfter(trades).peakEquity
    ensures exists k :: 0 <= k <= |trades| && Equity(trades, k) == StatsAfter(trades).peakEquity
    decreases |trades|
  {
    if trades == [] {
      assert Equity(trades, 0) == 0.0;
    } else {
      var n := |trades| - 1;
      StatsFollowCurve(trades[..n]);
      forall k | 0 <= k <= n ensures Equity(trades[..n], k) == Equity(trades, k) { EquityPrefix(trades, n, k); }
      var top :| 0 <= top <= n && Equity(trades[..n], top) == StatsAfter(trades[..n]).peakEquity;
      assert Equity(trades, top) == Equity(trades[..n], top);
      assert Equity(trades, n + 1) == Equity(trades, n) + trades[n].pnl;
    }
  }

  lemma {:induction false} NoPairLosesMore(trades: seq<Trade>, i: nat, j: nat)
    requires i <= j <= |trades|
    ensures Equity(trades, i) - Equity(trades, j) <= StatsAfter(trades).maxDrawdown
    decreases |trades|
  {
    if trades == [] {
    } else {
      var n := |trades| - 1;
      if j <= n {
        NoPairLosesMore(trades[..n], i, j);
        EquityPrefix(trades, n, i);
        EquityPrefix(trades, n, j);
      } else {
        StatsFollowCurve(trades);
      }
    }
  }

  lemma {:induction false} LossAttained(trades: seq<Trade>) returns (i: nat, j: nat)
    ensures i <= j <= |trades| && Equity(trades, i) - Equity(trades, j) == StatsAfter(trades).maxDrawdown
    decreases |trades|
  {
    if trades == [] {
      i, j := 0, 0;
    } else {
      var n := |trades| - 1;
      StatsFollowCurve(trades);
      var s := StatsAfter(trades);
      if s.maxDrawdown == s.peakEquity - s.currentEquity {
        i :| 0 <= i <= |trades| && Equity(trades, i) == s.peakEquity;
        j := |trades|;
      } else {
        i, j := LossAttained(trades[..n]);
        EquityPrefix(trades, n, i);
        EquityPrefix(trades, n, j);
      }
    }
  }

  /** Whatever the trades, the sizer's drawdown is the largest loss from an earlier to a
      later point of the equity curve that starts at zero. */
  lemma {:induction false} SizerDrawdownIsMaxOverPairs(trades: seq<Trade>)
    ensures forall i, j :: 0 <= i <= j <= |trades| ==>
              Equity(trades, i) - Equity(trades, j) <= StatsAfter(trades).maxDrawdown
    ensures exists i, j :: 0 <= i <= j <= |trades|
              && Equity(trades, i) - Equity(trades, j) == StatsAfter(trades).maxDrawdown
  {
    forall i, j | 0 <= i <= j <= |trades|
      ensures Equity(trades, i) - Equity(trades, j) <= StatsAfter(trades).maxDrawdown
    {
      NoPairLosesMore(trades, i, j);
    }
    var i, j := LossAttained(trades);
  }

  /** The books of a rule balance. */
  lemma {:induction false} StatsBalance(trades: seq<Trade>)
    ensures var s := StatsAfter(trades);
            && s.totalPnl == s.totalWinPnl + s.totalLossPnl == s.currentEquity
            && s.totalTrades == |trades| == |s.rMultiples| && s.winners <= s.totalTrades
            && s.totalLossPnl <= 0.0 <= s.totalWinPnl && (s.winners == 0 ==> s.totalWinPnl == 0.0)
            && 0.0 <= Sizing.WinRate(s) <= 1.0
    decreases |trades|
  {
    if trades == [] {
    } else {
      StatsBalance(trades[..|trades| - 1]);
    }
    var s := StatsAfter(trades);
    if s.totalTrades > 0 { PartOfWhole(s.winners, s.totalTrades); }
  }

  /** Places of the winning trades. */
  ghost function Winning(trades: seq<Trade>): set<nat> { set i: nat | i < |trades| && trades[i].pnl > 0.0 }

  /** P&L of the winning trades, or of the others. */
  function PnlOf(trades: seq<Trade>, won: bool): real {
    if trades == [] then 0.0
    else (if (trades[0].pnl > 0.0) == won then trades[0].pnl else 0.0) + PnlOf(trades[1..], won)
  }

  lemma {:induction false} PnlOfLast(trades: seq<Trade>, t: Trade, won: bool)
    ensures PnlOf(trades + [t], won) == PnlOf(trades, won) + if (t.pnl > 0.0) == won then t.pnl else 0.0
  {
    if trades == [] {
      assert [t][1..] == [] && trades + [t] == [t];
    } else {
      assert (trades + [t])[1..] == trades[1..] + [t];
      PnlOfLast(trades[1..], t, won);
    }
  }

  lemma {:induction false} WinningLast(trades: seq<Trade>, t: Trade)
    ensures |Winning(trades + [t])| == |Winning(trades)| + if t.pnl > 0.0 then 1 else 0
  {
    assert Winning(trades + [t]) == if t.pnl > 0.0 then Winning(trades) + {|trades|} else Winning(trades);
  }

  /** Each statistic from the trades alone: how many won, what they and the others made. */
  lemma {:induction false} StatsAre(trades: seq<Trade>)
    ensures var s := StatsAfter(trades);
            && s.winners == |Winning(trades)| && s.totalTrades == |trades|
            && s.totalWinPnl == PnlOf(trades, true) && s.totalLossPnl == PnlOf(trades, false)
    decreases |trades|
  {
    if trades == [] {
      assert Winning(trades) == {};
    } else {
      var init, t := trades[..|trades| - 1], trades[|trades| - 1];
      StatsAre(init);
      assert trades == init + [t];
      PnlOfLast(init, t, true);
      PnlOfLast(init, t, false);
      WinningLast(init, t);
    }
  }

  /** Each R-multiple is its trade's P&L over its risk, at two decimals, and zero without risk. */
  lemma {:induction false} RMultiplesAre(trades: seq<Trade>, i: nat)
    requires i < |trades|
    ensures var rs := StatsAfter(trades).rMultiples;
            && |rs| == |trades|
            && rs[i] == if trades[i].risk > 0.0 then Round2(trades[i].pnl / trades[i].risk) else 0.0
    decreases |trades|
  {
    var n := |trades| - 1;
    StatsBalance(trades[..n]);
    assert Round2(0.0) == 0.0;
    if i < n { RMultiplesAre(trades[..n], i); }
  }

  lemma {:induction false} PartOfWhole(k: nat, n: nat)
    requires k <= n && n > 0
    ensures 0.0 <= Quotient(k as real, n as real) <= 1.0
  {
    DivideAtMost(k as real, n as real, 1.0);
    DivideMoreThan(k as real, n as real, -1.0);
    if k == 0 { assert 0.0 / n as real == 0.0; } else { DivideMoreThan(k as real, n as real, 0.0); }
  }

  // ------------------------------------------------------------------ position size

  lemma {:induction false} FloorBounds(x: real, y: real)
    requires y > 0.0
    ensures var n := Sizing.Floor(Quotient(x, y));
            Product(n as real, y) <= x < Product((n + 1) as real, y)
  {
    var q := Quotient(x, y);
    var n := Sizing.Floor(q);
    assert Product(q, y) == x;
    ProductMonotone(n as real, q, y);
    ProductStrict(q, (n + 1) as real, y);
  }

  /** The size is the largest whole number of shares that keeps the loss at the stop, with
      one dollar of commission, within the risk amount and the value within the cap. */
  lemma {:induction false} SizeIsLargest(risk: real, stopDistance: real, cap: real, entry: real, m: nat)
    requires stopDistance > 0.0 && entry > 0.0
    ensures var n := Sizing.Shares(risk, stopDistance, cap, entry);
            n >= 0 && (m > 0 ==>
              (m <= n <==> Product(m as real, stopDistance) + 1.0 <= risk && Product(m as real, entry) <= cap))
  {
    if m > 0 {
      FitsIff(risk - 1.0, stopDistance, m);
      FitsIff(cap, entry, m);
    }
  }

  lemma {:induction false} FitsIff(x: real, y: real, m: nat)
    requires y > 0.0
    ensures m <= Sizing.Floor(Quotient(x, y)) <==> Product(m as real, y) <= x
  {
    FloorBounds(x, y);
    var n := Sizing.Floor(Quotient(x, y));
    if m <= n { ProductMonotone(m as real, n as real, y); } else { ProductMonotone((n + 1) as real, m as real, y); }
  }

  /** A value held between two bounds, the lower one last. */
  function Between(low: real, high: real, x: real): real {
    var capped := if x <= high then x else high;
    if capped >= low then capped else low
  }

  /** The risk percentage: the base before ten trades; from then on more by a fraction of at
      most a quarter, halved for a win rate under 35 per cent; always within its bounds. */
  lemma {:induction false} RiskPctMeans(z: Sizing.Sizer, s: Sizing.RuleStats)
    requires s.winners <= s.totalTrades
    ensures s.totalTrades < 10 ==> Sizing.RiskPct(z, s) == Between(z.minRiskPct, z.maxRiskPct, z.baseRiskPct)
    ensures s.totalTrades >= 10 ==>
              var k := Sizing.KellyFraction(s);
              var boosted := Product(z.baseRiskPct, 1.0 + k);
              var risk := if 100 * s.winners < 35 * s.totalTrades then boosted * 0.5 else boosted;
              0.0 <= k <= 0.25 && Sizing.RiskPct(z, s) == Between(z.minRiskPct, z.maxRiskPct, risk)
  {
    if s.totalTrades >= 10 { RateBelow(s.winners, s.totalTrades); }
  }

  lemma {:induction false} RateBelow(k: nat, n: nat)
    requires n > 0
    ensures Quotient(k as real, n as real) < 0.35 <==> 100 * k < 35 * n
  {
    var q := Quotient(k as real, n as real);
    assert Product(q, n as real) == k as real;
    if q < 0.35 { ProductStrict(q, 0.35, n as real); } else { ProductMonotone(0.35, q, n as real); }
  }

  /** The fraction of Kelly's formula from average win and loss, between zero and a quarter. */
  lemma {:induction false} KellyMeans(s: Sizing.RuleStats)
    requires 0 < s.winners < s.totalTrades && s.totalLossPnl < 0.0 && s.totalWinPnl > 0.0
    ensures var w := Quotient(s.winners as real, s.totalTrades as real);
            var r := Quotient(Quotient(s.totalWinPnl, s.winners as real),
                              Quotient(-s.totalLossPnl, (s.totalTrades - s.winners) as real));
            r > 0.0 && Sizing.KellyFraction(s) == Between(0.0, 0.25, w - Quotient(1.0 - w, r))
  {
    var win := Quotient(s.totalWinPnl, s.winners as real);
    var loss := Quotient(s.totalLossPnl, (s.totalTrades - s.winners) as real);
    QuotientSign(s.totalWinPnl, s.winners as real);
    QuotientSign(-s.totalLossPnl, (s.totalTrades - s.winners) as real);
    assert Quotient(-s.totalLossPnl, (s.totalTrades - s.winners) as real) == -loss;
    QuotientSign(win, -loss);
    assert Quotient(win, loss) == -Quotient(win, -loss);
  }

  /** Without a loss in the totals the ratio of the two averages is taken to be 1.5; without a
      win there is no boost. */
  lemma {:induction false} KellyAtTheEdges(s: Sizing.RuleStats)
    requires 0 < s.totalTrades && s.winners <= s.totalTrades
    ensures var w := Quotient(s.winners as real, s.totalTrades as real);
            && (s.totalLossPnl == 0.0 ==> Sizing.KellyFraction(s) == Between(0.0, 0.25, w - (1.0 - w) / 1.5))
            && (s.totalLossPnl < 0.0 && s.winners < s.totalTrades && s.totalWinPnl == 0.0 ==> Sizing.KellyFraction(s) == 0.0)
  {
    if s.totalLossPnl == 0.0 {
      assert Sizing.Average(s.totalLossPnl, s.totalTrades - s.winners) == 0.0;
    } else if s.totalLossPnl < 0.0 && s.winners < s.totalTrades && s.totalWinPnl == 0.0 {
      var loss := Quotient(s.totalLossPnl, (s.totalTrades - s.winners) as real);
      QuotientSign(-s.totalLossPnl, (s.totalTrades - s.winners) as real);
      assert loss == -Quotient(-s.totalLossPnl, (s.totalTrades - s.winners) as real);
      assert Sizing.Average(s.totalWinPnl, s.winners) == 0.0 && Quotient(0.0, loss) == 0.0;
    }
  }

  lemma {:induction false} QuotientSign(x: real, y: real)
    requires x > 0.0 && y > 0.0
    ensures Quotient(x, y) > 0.0
  {
    var q := Quotient(x, y);
    assert Product(q, y) == x;
    if q < 0.0 { ProductStrict(q, 0.0, y); }
  }

  /** The whole answer: no size without a stop distance, a price and equity; otherwise the
      largest number of shares whose loss at the stop, with a dollar of commission, is within
      the risked part of the equity and whose value is within the capped part. */
  lemma {:induction false} SizeMeans(
      z: Sizing.Sizer, s: Sizing.RuleStats, entry: real, stop: real, equity: real, regime: real, m: nat)
    requires m > 0
    ensures var size := Sizing.SizeFor(z, s, entry, stop, equity, regime);
            var distance := if entry >= stop then entry - stop else stop - entry;
            var risked := Product(equity, Product(Sizing.RiskPct(z, s), regime) / 100.0);
            var capped := Product(equity, z.maxPositionPct / 100.0);
            if entry == stop || entry <= 0.0 || equity <= 0.0 then size == Sizing.Skip
            else
              && size.Size? && size.shares >= 0
              && (m <= size.shares <==> Product(m as real, distance) + 1.0 <= risked && Product(m as real, entry) <= capped)
              && size.value == Round2(Product(size.shares as real, entry))
              && size.riskAmount == Round2(Product(size.shares as real, distance))
              && size.riskPct == Round2(Product(Sizing.RiskPct(z, s), regime))
  {
    var distance := if entry >= stop then entry - stop else stop - entry;
    if entry != stop && entry > 0.0 && equity > 0.0 {
      var risked := Product(equity, Product(Sizing.RiskPct(z, s), regime) / 100.0);
      SizeIsLargest(risked, distance, Product(equity, z.maxPositionPct / 100.0), entry, m);
    }
  }

  // ------------------------------------------------------------------ expectancy

  lemma {:induction false} SumSplits(pnls: seq<real>)
    ensures Sum(pnls) == WinSum(pnls) + LossSum(pnls) && WinSum(pnls) >= 0.0 >= LossSum(pnls)
    ensures (Wins(pnls) == 0 ==> WinSum(pnls) == 0.0) && (Losses(pnls) == 0 ==> LossSum(pnls) == 0.0)
    decreases |pnls|
  {
    if pnls == [] {
    } else {
      SumSplits(pnls[..|pnls| - 1]);
    }
  }

  lemma {:induction false} RateTimesAverage(k: nat, n: nat, total: real)
    requires n > 0 && (k == 0 ==> total == 0.0)
    ensures Product(Quotient(k as real, n as real), Quotient(total, AtLeastOne(k) as real)) == Quotient(total, n as real)
  {
    if k > 0 {
      var a, b := Quotient(total, k as real), k as real;
      assert a * b == total;
      Regroup(b, n as real, a);
    } else {
      assert Quotient(0.0, n as real) == 0.0;
    }
  }

  lemma {:induction false} Regroup(b: real, n: real, a: real)
    requires n > 0.0
    ensures Product(Quotient(b, n), a) == Quotient(a * b, n)
  {
    var q := Quotient(b, n);
    assert q * n == b;
    assert q * a * n == a * b;
  }

  /** With enough samples the expectancy is the mean P&L: break-even trades count in the
      denominator of both rates and in neither sum. */
  lemma {:induction false} ExpectancyIsMean(pnls: seq<real>, minSamples: nat)
    requires minSamples >= 1
    ensures ComputeExpectancy(pnls, minSamples)
         == if |pnls| < minSamples then None else Some(Quotient(Sum(pnls), |pnls| as real))
  {
    if |pnls| >= minSamples {
      var n := |pnls| as real;
      SumSplits(pnls);
      RateTimesAverage(Wins(pnls), |pnls|, WinSum(pnls));
      RateTimesAverage(Losses(pnls), |pnls|, LossSum(pnls));
      LossPart(pnls);
      RatioAdds(WinSum(pnls), LossSum(pnls), n);
    }
  }

  lemma {:induction false} RatioAdds(x: real, y: real, n: real)
    requires n > 0.0
    ensures Quotient(x, n) + Quotient(y, n) == Quotient(x + y, n)
  {
  }

  lemma {:induction false} LossPart(pnls: seq<real>)
    requires pnls != []
    ensures var rate, average := Quotient(Losses(pnls) as real, |pnls| as real),
                                 Quotient(LossSum(pnls), AtLeastOne(Losses(pnls)) as real);
            Product(rate, Magnitude(average)) == -Product(rate, average)
  {
    SumSplits(pnls);
    var average := Quotient(LossSum(pnls), AtLeastOne(Losses(pnls)) as real);
    NotPositive(LossSum(pnls), AtLeastOne(Losses(pnls)) as real);
    assert Magnitude(average) == -average;
  }

  lemma {:induction false} NotPositive(x: real, y: real)
    requires x <= 0.0 && y > 0.0
    ensures Quotient(x, y) <= 0.0
  {
  }
}
