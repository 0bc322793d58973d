/** One-pass performance figures: `check_drawdown` of `backend/risk_manager.py`, the
    drawdown and streak loops of `backend/backtester.py`, and `backend/evaluation_math.py`. */
module Drawdown {
  import opened Money
  import opened Options
  import opened Rounding

  /** Relative fall from a peak; zero when the peak is not positive. */
  function Fall(peak: real, v: real): real { if peak > 0.0 then (peak - v) / peak else 0.0 }

  /** What one pass over the values keeps: the running peak and its index, and the deepest
      fall with its peak and trough. */
  datatype Pass = Pass(peak: real, start: nat, deepest: real, from: real, to: real)

  function Advance(p: Pass, i: nat, v: real): Pass {
    var peak := if v > p.peak then v else p.peak;
    var start := if v > p.peak then i else p.start;
    if Fall(peak, v) > p.deepest then Pass(peak, start, Fall(peak, v), peak, v)
    else Pass(peak, start, p.deepest, p.from, p.to)
  }

  function OnePass(values: seq<real>): Pass
    requires values != []
    decreases |values|
  {
    var n := |values| - 1;
    if n == 0 then Pass(values[0], 0, 0.0, values[0], values[0])
    else Advance(OnePass(values[..n]), n, values[n])
  }

  lemma {:induction false} DepthNotNegative(values: seq<real>)
    requires values != []
    ensures OnePass(values).deepest >= 0.0
    decreases |values|
  {
    if |values| > 1 { DepthNotNegative(values[..|values| - 1]); }
  }

  datatype DrawdownStatus = DrawdownStatus(
    currentPct: real, maxPct: real, peak: real, trough: real, duration: nat, breached: bool)

  function StatusOf(values: seq<real>): DrawdownStatus {
    if values == [] then DrawdownStatus(0.0, 0.0, 0.0, 0.0, 0, false)
    else
      var p := OnePass(values);
      StartInRange(values);
      DrawdownStatus(
        Round2(Fall(p.peak, values[|values| - 1]) * 100.0), Round2(p.deepest * 100.0),
        Round2(p.from), Round2(p.to), |values| - p.start, false)
  }

  lemma {:induction false} StartInRange(values: seq<real>)
    requires values != []
    ensures OnePass(values).start < |values|
    decreases |values|
  {
    if |values| > 1 { StartInRange(values[..|values| - 1]); }
  }

  /** One more value; the first one, advanced over, changes nothing. */
  lemma {:induction false} PassGrows(values: seq<real>, i: nat)
    requires i < |values|
    ensures var before := if i == 0 then Pass(values[0], 0, 0.0, values[0], values[0]) else OnePass(values[..i]);
            OnePass(values[..i + 1]) == Advance(before, i, values[i])
  {
    assert values[..i + 1][..i] == values[..i];
  }

  method CheckDrawdown(values: seq<real>) returns (s: DrawdownStatus)
    ensures s == StatusOf(values)
  {
    if values == [] { return DrawdownStatus(0.0, 0.0, 0.0, 0.0, 0, false); }
    var peak, maxDd, peakVal, troughVal, ddStart := values[0], 0.0, values[0], values[0], 0;
    ghost var p := Pass(peak, ddStart, maxDd, peakVal, troughVal);
    for i := 0 to |values|
      invariant p == Pass(peak, ddStart, maxDd, peakVal, troughVal) && ddStart <= i
      invariant p == if i == 0 then Pass(values[0], 0, 0.0, values[0], values[0]) else OnePass(values[..i])
    {
      var v := values[i];
      PassGrows(values, i);
      p := Advance(p, i, v);
      if v > peak {
        peak, ddStart := v, i;
      }
      var dd := Fall(peak, v);
      if dd > maxDd {
        maxDd, troughVal, peakVal := dd, v, peak;
      }
    }
    assert values[..|values|] == values;
    StartInRange(values);
    var last := values[|values| - 1];
    var current := Fall(peak, last);
    return DrawdownStatus(
      Round2(current * 100.0), Round2(maxDd * 100.0), Round2(peakVal), Round2(troughVal), |values| - ddStart, false);
  }

  /** The backtester's drawdown, in percent. */
  method MaxDrawdownPct(equities: seq<real>) returns (pct: real)
    ensures pct == if equities == [] then 0.0 else OnePass(equities).deepest * 100.0
  {
    pct := 0.0;
    if equities != [] {
      var peak := equities[0];
      for i := 0 to |equities|
        invariant i == 0 ==> peak == equities[0] && pct == 0.0
        invariant i > 0 ==> OnePass(equities[..i]).peak == peak && pct == OnePass(equities[..i]).deepest * 100.0
      {
        var e := equities[i];
        assert equities[..i + 1][..i] == equities[..i];
        if e > peak { peak := e; }
        var dd := Fall(peak, e) * 100.0;
        if dd > pct { pct := dd; }
      }
      assert equities[..|equities|] == equities;
    }
  }

  function Sum(xs: seq<real>): real
    decreases |xs|
  {
    if xs == [] then 0.0 else Sum(xs[..|xs| - 1]) + xs[|xs| - 1]
  }

  /** Cumulative P&L from zero. */
  function Curve(pnls: seq<real>): (r: seq<real>)
    ensures |r| == |pnls| + 1
    decreases |pnls|
  {
    if pnls == [] then [0.0]
    else
      var before := Curve(pnls[..|pnls| - 1]);
      before + [before[|pnls| - 1] + pnls[|pnls| - 1]]
  }

  lemma {:induction false} CurveAt(pnls: seq<real>, k: nat)
    requires k <= |pnls|
    ensures Curve(pnls)[k] == Sum(pnls[..k])
    decreases |pnls|
  {
    if k < |pnls| {
      CurveAt(pnls[..|pnls| - 1], k);
      assert pnls[..|pnls| - 1][..k] == pnls[..k];
    } else if k > 0 {
      CurveAt(pnls[..k - 1], k - 1);
      assert pnls[..k - 1][..k - 1] == pnls[..k - 1] && pnls[..k] == pnls;
    }
  }

  function CurveLast(pnls: seq<real>): real { Curve(pnls)[|pnls|] }

  lemma {:induction false} CurvePassGrows(pnls: seq<real>, i: nat)
    requires i < |pnls|
    ensures OnePass(Curve(pnls[..i + 1])) == Advance(OnePass(Curve(pnls[..i])), i + 1, CurveLast(pnls[..i]) + pnls[i])
    ensures CurveLast(pnls[..i + 1]) == CurveLast(pnls[..i]) + pnls[i]
  {
    var next, c := pnls[..i + 1], Curve(pnls[..i]);
    assert next[..i] == pnls[..i];
    assert Curve(next) == c + [c[i] + pnls[i]];
    assert Curve(next)[..i + 1] == c;
  }

  /** `compute_max_drawdown_pct_from_pnls`. */
  method MaxDrawdownPctFromPnls(pnls: seq<real>) returns (r: Option<real>)
    ensures r == if pnls == [] then None else Some(OnePass(Curve(pnls)).deepest * 100.0)
  {
    if pnls == [] { return None; }
    var maxDd, cumulative, peak := 0.0, 0.0, 0.0;
    ghost var p := OnePass(Curve(pnls[..0]));
    for i := 0 to |pnls|
      invariant cumulative == CurveLast(pnls[..i]) && p == OnePass(Curve(pnls[..i]))
      invariant p.peak == peak && maxDd == p.deepest * 100.0
    {
      CurvePassGrows(pnls, i);
      cumulative := cumulative + pnls[i];
      p := Advance(p, i + 1, cumulative);
      if cumulative > peak { peak := cumulative; }
      if peak > 0.0 {
        var drawdown := Fall(peak, cumulative) * 100.0;
        if drawdown > maxDd { maxDd := drawdown; }
      } else {
        DepthNotNegative(Curve(pnls[..i + 1]));
      }
    }
    assert pnls[..|pnls|] == pnls;
    return Some(maxDd);
  }

  // ------------------------------------------------------------------ streaks

  /** Trades i..j all won (or all did not). */
  ghost predicate Streak(pnls: seq<real>, won: bool, i: nat, j: nat) {
    i <= j <= |pnls| && forall k :: i <= k < j ==> (pnls[k] > 0.0 <==> won)
  }

  ghost predicate LongestStreak(pnls: seq<real>, won: bool, n: nat) {
    && (exists i, j :: 0 <= i <= j <= |pnls| && Streak(pnls, won, i, j) && j - i == n)
    && forall i, j :: 0 <= i <= j <= |pnls| && Streak(pnls, won, i, j) ==> j - i <= n
  }

  /** After n trades: the run that ends here and the longest so far. */
  ghost predicate Running(pnls: seq<real>, won: bool, n: nat, current: nat, longest: nat) {
    && n <= |pnls| && LongestStreak(pnls[..n], won, longest)
    && (exists i :: 0 <= i <= n && Streak(pnls, won, i, n) && n - i == current)
    && (forall i :: 0 <= i <= n && Streak(pnls, won, i, n) ==> n - i <= current)
  }

  lemma {:induction false} StreakPrefix(pnls: seq<real>, won: bool, n: nat, i: nat, j: nat)
    requires i <= j <= n <= |pnls|
    ensures Streak(pnls[..n], won, i, j) <==> Streak(pnls, won, i, j)
  {
    assert forall k :: i <= k < j ==> pnls[..n][k] == pnls[k];
  }

  lemma {:induction false} RunningExtends(pnls: seq<real>, won: bool, n: nat, current: nat, longest: nat)
    requires Running(pnls, won, n, current, longest) && n < |pnls| && (pnls[n] > 0.0 <==> won)
    ensures Running(pnls, won, n + 1, current + 1, if current + 1 > longest then current + 1 else longest)
  {
    var m, best := n + 1, if current + 1 > longest then current + 1 else longest;
    var start :| 0 <= start <= n && Streak(pnls, won, start, n) && n - start == current;
    assert Streak(pnls, won, start, m);
    forall i | 0 <= i <= m && Streak(pnls, won, i, m) ensures m - i <= current + 1 {
      if i <= n { assert Streak(pnls, won, i, n); }
    }
    StreakPrefix(pnls, won, m, start, m);
    LongestGrows(pnls, won, n, m, pnls[..m], longest, best);
  }

  lemma {:induction false} RunningBreaks(pnls: seq<real>, won: bool, n: nat, current: nat, longest: nat)
    requires Running(pnls, won, n, current, longest) && n < |pnls| && !(pnls[n] > 0.0 <==> won)
    ensures Running(pnls, won, n + 1, 0, longest)
  {
    assert Streak(pnls, won, n + 1, n + 1);
    LongestGrows(pnls, won, n, n + 1, pnls[..n + 1], longest, longest);
  }

  /** A longest streak of one more trade: the old one, or one that ends in the new trade. */
  lemma {:induction false} LongestGrows(
      pnls: seq<real>, won: bool, n: nat, m: nat, next: seq<real>, longest: nat, best: nat)
    requires n < |pnls| && m == n + 1 && next == pnls[..m]
    requires LongestStreak(pnls[..n], won, longest) && best >= longest
    requires forall i :: 0 <= i <= m && Streak(pnls, won, i, m) ==> m - i <= best
    requires best == longest || exists i :: 0 <= i <= m && Streak(next, won, i, m) && m - i == best
    ensures LongestStreak(next, won, best)
  {
    forall i, j | 0 <= i <= j <= m && Streak(next, won, i, j) ensures j - i <= best {
      StreakPrefix(pnls, won, m, i, j);
      if j <= n { StreakPrefix(pnls, won, n, i, j); }
    }
    if best == longest {
      var before := pnls[..n];
      var i, j :| 0 <= i <= j <= n && Streak(before, won, i, j) && j - i == longest;
      StreakPrefix(pnls, won, n, i, j);
      StreakPrefix(pnls, won, m, i, j);
    }
  }

  /** The longest run of wins and of other trades. */
  method Streaks(pnls: seq<real>) returns (longestWin: nat, longestLose: nat)
    ensures LongestStreak(pnls, true, longestWin) && LongestStreak(pnls, false, longestLose)
  {
    longestWin, longestLose := 0, 0;
    var currentWin, currentLose: nat := 0, 0;
    assert Streak(pnls, true, 0, 0) && Streak(pnls, false, 0, 0);
    assert Streak(pnls[..0], true, 0, 0) && Streak(pnls[..0], false, 0, 0);
    for n := 0 to |pnls|
      invariant Running(pnls, true, n, currentWin, longestWin)
      invariant Running(pnls, false, n, currentLose, longestLose)
    {
      if pnls[n] > 0.0 {
        RunningExtends(pnls, true, n, currentWin, longestWin);
        RunningBreaks(pnls, false, n, currentLose, longestLose);
        currentWin := currentWin + 1;
        currentLose := 0;
        if currentWin > longestWin { longestWin := currentWin; }
      } else {
        RunningBreaks(pnls, true, n, currentWin, longestWin);
        RunningExtends(pnls, false, n, currentLose, longestLose);
        currentLose := currentLose + 1;
        currentWin := 0;
        if currentLose > longestLose { longestLose := currentLose; }
      }
    }
    assert pnls[..|pnls|] == pnls;
  }

  // ------------------------------------------------------------------ expectancy

  function Wins(pnls: seq<real>): nat
    decreases |pnls|
  {
    if pnls == [] then 0 else Wins(pnls[..|pnls| - 1]) + if pnls[|pnls| - 1] > 0.0 then 1 else 0
  }

  function WinSum(pnls: seq<real>): real
    decreases |pnls|
  {
    if pnls == [] then 0.0
    else WinSum(pnls[..|pnls| - 1]) + if pnls[|pnls| - 1] > 0.0 then pnls[|pnls| - 1] else 0.0
  }

  function Losses(pnls: seq<real>): nat
    decreases |pnls|
  {
    if pnls == [] then 0 else Losses(pnls[..|pnls| - 1]) + if pnls[|pnls| - 1] < 0.0 then 1 else 0
  }

  function LossSum(pnls: seq<real>): real
    decreases |pnls|
  {
    if pnls == [] then 0.0
    else LossSum(pnls[..|pnls| - 1]) + if pnls[|pnls| - 1] < 0.0 then pnls[|pnls| - 1] else 0.0
  }

  function AtLeastOne(n: nat): nat { if n >= 1 then n else 1 }

  /** `compute_expectancy`; the callers keep `minSamples` at its default of 3. */
  function ComputeExpectancy(pnls: seq<real>, minSamples: nat): Option<real>
    requires minSamples >= 1
  {
    if |pnls| < minSamples then None
    else
      var avgWin := Quotient(WinSum(pnls), AtLeastOne(Wins(pnls)) as real);
      var avgLoss := Magnitude(Quotient(LossSum(pnls), AtLeastOne(Losses(pnls)) as real));
      var winRate := Quotient(Wins(pnls) as real, |pnls| as real);
      var lossRate := Quotient(Losses(pnls) as real, |pnls| as real);
      Some(Product(winRate, avgWin) - Product(lossRate, avgLoss))
  }
}
