/** Portfolio concentration: `check_portfolio_impact` of `backend/risk_manager.py` and the
    candidate loop of `_run_cycle` in `backend/bot_runner.py`. */
module Concentration {
  import opened Money
  import opened Options
  import opened Rounding
  import opened Symbols

  datatype Sector = Sector(name: string)

  const OTHER: Sector := Sector("Other")

  /** A held position, a pending order or an approved candidate. */
  datatype Exposure = Exposure(symbol: Symbol, marketValue: real, qty: real, marketPrice: real, isBuy: bool)

  /** Row `i` of the matrix belongs to `symbols[i]`; `None` is a missing or NaN entry. */
  datatype Matrix = Matrix(symbols: seq<Symbol>, rows: seq<seq<Option<real>>>)

  datatype Limits = Limits(maxSectorPct: real, maxCorrelated: int, corrThreshold: real)

  /** What stays fixed during one cycle. */
  datatype Cycle = Cycle(
    positions: seq<Exposure>,
    pending: seq<Exposure>,
    netLiq: real,
    sectorOf: Symbol -> Option<Sector>,
    matrix: Option<Matrix>,
    limits: Limits)

  function Bucket(c: Cycle, s: Symbol): Sector {
    if c.sectorOf(s).Some? then c.sectorOf(s).value else OTHER
  }

  /** `market_value`, or quantity times price when it is missing or zero. */
  function Worth(e: Exposure): real { if e.marketValue != 0.0 then e.marketValue else e.qty * e.marketPrice }

  function Counted(e: Exposure): real { if Worth(e) > 0.0 then Worth(e) else 0.0 }

  /** Notional of one sector. */
  function SectorSum(c: Cycle, xs: seq<Exposure>, s: Sector): real {
    if xs == [] then 0.0
    else
      var e := xs[|xs| - 1];
      SectorSum(c, xs[..|xs| - 1], s) + if Bucket(c, e.symbol) == s then Counted(e) else 0.0
  }

  function Percent(amount: real, netLiq: real): real
    requires netLiq > 0.0
  {
    amount / netLiq * 100.0
  }

  /** `compute_current_sector_exposure`. */
  method ComputeCurrentSectorExposure(c: Cycle, xs: seq<Exposure>) returns (exposure: map<Sector, real>)
    ensures c.netLiq <= 0.0 ==> exposure == map[]
    ensures c.netLiq > 0.0 ==> forall s :: Lookup(exposure, s) == Round2(Percent(SectorSum(c, xs, s), c.netLiq))
  {
    if c.netLiq <= 0.0 { return map[]; }
    var notional: map<Sector, real> := map[];
    for i := 0 to |xs|
      invariant forall s :: Lookup(notional, s) == SectorSum(c, xs[..i], s)
    {
      var e := xs[i];
      assert xs[..i + 1][..i] == xs[..i];
      var val := Worth(e);
      if val <= 0.0 { continue; }
      var sector := Bucket(c, e.symbol);
      notional := notional[sector := Lookup(notional, sector) + val];
    }
    assert xs[..|xs|] == xs;
    assert Round2(Percent(0.0, c.netLiq)) == 0.0;
    exposure := map s | s in notional :: Round2(Percent(notional[s], c.netLiq));
  }

  function Lookup(m: map<Sector, real>, s: Sector): real { if s in m then m[s] else 0.0 }

  // ------------------------------------------------------------------ correlation

  function IndexIn(symbols: seq<Symbol>, s: Symbol): (i: nat)
    ensures i <= |symbols|
    ensures i < |symbols| ==> symbols[i] == s
    ensures forall j :: 0 <= j < i ==> symbols[j] != s
  {
    if symbols == [] || symbols[0] == s then 0 else 1 + IndexIn(symbols[1..], s)
  }

  predicate Correlated(m: Matrix, a: Symbol, b: Symbol, threshold: real) {
    var i, j := IndexIn(m.symbols, a), IndexIn(m.symbols, b);
    && a != b && i < |m.symbols| && j < |m.symbols|
    && i < |m.rows| && j < |m.rows[i]|
    && m.rows[i][j].Some? && Magnitude(m.rows[i][j].value) > threshold
  }

  function SymbolsOf(xs: seq<Exposure>): set<Symbol> { set e | e in xs :: e.symbol }

  /** The other symbols correlated with `s`. */
  function Correlates(m: Matrix, s: Symbol, others: set<Symbol>, threshold: real): set<Symbol> {
    set o | o in others && Correlated(m, s, o, threshold)
  }

  function Distinct(held: seq<Symbol>): set<Symbol> { set h | h in held }

  lemma {:induction false} CorrelatesGrow(m: Matrix, s: Symbol, held: seq<Symbol>, k: nat, threshold: real)
    requires k < |held| && forall i, j :: 0 <= i < j < |held| ==> held[i] != held[j]
    ensures held[k] !in Correlates(m, s, Distinct(held[..k]), threshold)
    ensures Correlates(m, s, Distinct(held[..k + 1]), threshold)
         == Correlates(m, s, Distinct(held[..k]), threshold)
            + if Correlated(m, s, held[k], threshold) then {held[k]} else {}
  {
    assert held[..k + 1] == held[..k] + [held[k]];
    assert Distinct(held[..k + 1]) == Distinct(held[..k]) + {held[k]};
  }

  /** The places of the list that hold a correlated symbol. */
  function Hits(m: Matrix, s: Symbol, held: seq<Symbol>, threshold: real): set<nat> {
    set i: nat | i < |held| && Correlated(m, s, held[i], threshold)
  }

  lemma {:induction false} HitsGrow(m: Matrix, s: Symbol, held: seq<Symbol>, k: nat, threshold: real)
    requires k < |held|
    ensures |Hits(m, s, held[..k + 1], threshold)|
         == |Hits(m, s, held[..k], threshold)| + if Correlated(m, s, held[k], threshold) then 1 else 0
  {
    assert Hits(m, s, held[..k + 1], threshold)
        == Hits(m, s, held[..k], threshold) + if Correlated(m, s, held[k], threshold) then {k} else {};
  }

  lemma {:induction false} SizeGrows(xs: set<Symbol>, x: Symbol)
    requires x !in xs
    ensures |xs + {x}| == |xs| + 1 && xs + {} == xs
  {
  }

  /** Over distinct symbols the places are as many as the symbols. */
  lemma {:induction false} HitsOfDistinct(m: Matrix, s: Symbol, held: seq<Symbol>, k: nat, threshold: real)
    requires k <= |held| && forall i, j :: 0 <= i < j < |held| ==> held[i] != held[j]
    ensures |Hits(m, s, held[..k], threshold)| == |Correlates(m, s, Distinct(held[..k]), threshold)|
  {
    if k == 0 {
      assert Hits(m, s, held[..0], threshold) == {} && Correlates(m, s, Distinct(held[..0]), threshold) == {};
    } else {
      var n := k - 1;
      HitsOfDistinct(m, s, held, n, threshold);
      HitsGrow(m, s, held, n, threshold);
      CorrelatesGrow(m, s, held, n, threshold);
      SizeGrows(Correlates(m, s, Distinct(held[..n]), threshold), held[n]);
    }
  }

  /** `_count_correlated_positions`: a symbol held twice counts twice. */
  method CountCorrelatedPositions(m: Matrix, s: Symbol, held: seq<Symbol>, threshold: real) returns (count: nat)
    ensures count == |Hits(m, s, held, threshold)|
  {
    count := 0;
    var at := IndexIn(m.symbols, s);
    if at == |m.symbols| {
      assert Hits(m, s, held, threshold) == {};
      return;
    }
    assert Hits(m, s, held[..0], threshold) == {};
    for k := 0 to |held|
      invariant count == |Hits(m, s, held[..k], threshold)|
    {
      HitsGrow(m, s, held, k, threshold);
      if held[k] == s { continue; }
      var to := IndexIn(m.symbols, held[k]);
      if to == |m.symbols| { continue; }
      if at < |m.rows| && to < |m.rows[at]| && m.rows[at][to].Some? {
        if Magnitude(m.rows[at][to].value) > threshold {
          count := count + 1;
        }
      }
    }
    assert held[..|held|] == held;
  }

  // ------------------------------------------------------------------ the check

  datatype Verdict = SellExit | SectorLimit | CorrelationLimit | DegradedBlock | DegradedCorrSkip | Pass

  predicate Allowed(v: Verdict) { v in {SellExit, DegradedCorrSkip, Pass} }

  function Buys(xs: seq<Exposure>): seq<Exposure> {
    if xs == [] then []
    else Buys(xs[..|xs| - 1]) + if xs[|xs| - 1].isBuy then [xs[|xs| - 1]] else []
  }

  /** Everything counted against a candidate: held, pending buys, approved buys. */
  function Exposed(c: Cycle, approved: seq<Exposure>): seq<Exposure> {
    c.positions + Buys(c.pending) + Buys(approved)
  }

  /** The projected weight of a sector, as the check computes it. */
  function Projected(c: Cycle, approved: seq<Exposure>, s: Sector, notional: real): real
    requires c.netLiq > 0.0
  {
    Round2(Percent(SectorSum(c, Exposed(c, approved), s), c.netLiq)) + Percent(notional, c.netLiq)
  }

  /** The named symbols of the exposure, other than the candidate itself. */
  function Relevant(c: Cycle, approved: seq<Exposure>, s: Symbol): set<Symbol> {
    SymbolsOf(Exposed(c, approved)) - {s, Ticker("")}
  }

  /** `check_portfolio_impact`. */
  function CheckImpact(c: Cycle, approved: seq<Exposure>, s: Symbol, isBuy: bool, notional: real): Verdict {
    if !isBuy then SellExit
    else
      var sector := c.sectorOf(s);
      if sector.Some? && c.netLiq > 0.0 && Projected(c, approved, sector.value, notional) > c.limits.maxSectorPct
      then SectorLimit
      else if c.matrix.None? then (if sector.None? then DegradedBlock else DegradedCorrSkip)
      else if |Correlates(c.matrix.value, s, Relevant(c, approved, s), c.limits.corrThreshold)| >= c.limits.maxCorrelated
      then CorrelationLimit
      else Pass
  }

  /** One of the two loops that collect the buys. */
  method AddBuys(all: seq<Exposure>, xs: seq<Exposure>) returns (r: seq<Exposure>)
    ensures r == all + Buys(xs)
  {
    r := all;
    for i := 0 to |xs|
      invariant r == all + Buys(xs[..i])
    {
      assert xs[..i + 1][..i] == xs[..i];
      if xs[i].isBuy { r := r + [xs[i]]; }
    }
    assert xs[..|xs|] == xs;
  }

  /** The list of distinct named symbols other than `s`. */
  method RelevantSymbols(all: seq<Exposure>, s: Symbol) returns (relevant: seq<Symbol>)
    ensures forall i, j :: 0 <= i < j < |relevant| ==> relevant[i] != relevant[j]
    ensures Distinct(relevant) == SymbolsOf(all) - {s, Ticker("")}
  {
    relevant := [];
    for n := 0 to |all|
      invariant forall i, j :: 0 <= i < j < |relevant| ==> relevant[i] != relevant[j]
      invariant Distinct(relevant) == SymbolsOf(all[..n]) - {s, Ticker("")}
    {
      var h := all[n].symbol;
      assert all[..n + 1] == all[..n] + [all[n]];
      assert SymbolsOf(all[..n + 1]) == SymbolsOf(all[..n]) + {h};
      assert h in relevant <==> h in Distinct(relevant);
      if h != Ticker("") && h != s && h !in relevant {
        assert Distinct(relevant + [h]) == Distinct(relevant) + {h};
        relevant := relevant + [h];
      }
    }
    assert all[..|all|] == all;
  }

  method CheckPortfolioImpact(c: Cycle, approved: seq<Exposure>, s: Symbol, isBuy: bool, notional: real)
    returns (v: Verdict)
    ensures v == CheckImpact(c, approved, s, isBuy, notional)
  {
    if !isBuy { return SellExit; }
    var all := AddBuys(c.positions, c.pending);
    all := AddBuys(all, approved);
    assert all == Exposed(c, approved);
    var sector := c.sectorOf(s);
    if sector.Some? && c.netLiq > 0.0 {
      var exposure := ComputeCurrentSectorExposure(c, all);
      var after := Lookup(exposure, sector.value) + Percent(notional, c.netLiq);
      if after > c.limits.maxSectorPct { return SectorLimit; }
    }
    if c.matrix.None? {
      return if sector.None? then DegradedBlock else DegradedCorrSkip;
    }
    var relevant := RelevantSymbols(all, s);
    var count := CountCorrelatedPositions(c.matrix.value, s, relevant, c.limits.corrThreshold);
    HitsOfDistinct(c.matrix.value, s, relevant, |relevant|, c.limits.corrThreshold);
    assert relevant[..|relevant|] == relevant && Distinct(relevant) == Relevant(c, approved, s);
    return if count >= c.limits.maxCorrelated then CorrelationLimit else Pass;
  }

  // ------------------------------------------------------------------ the cycle

  /** A selected candidate. `stop` is the low-cash break of the rule path, `placed` says
      that every other guard passed and a trade came back. */
  datatype Candidate = Candidate(
    symbol: Symbol, isExit: bool, isBuy: bool, notional: real, direct: bool, stop: bool, placed: bool)

  datatype Progress = Progress(orders: nat, executed: set<Symbol>, approved: seq<Exposure>, stopped: bool)

  function Approved(k: Candidate): Exposure { Exposure(k.symbol, k.notional, 0.0, 0.0, true) }

  /** One turn of the candidate loop with enforcement on and its inputs ready. */
  function Turn(c: Cycle, exited: set<Symbol>, maxOrders: nat, p: Progress, k: Candidate): Progress {
    if p.stopped || p.orders >= maxOrders then p.(stopped := true)
    else if k.symbol == Ticker("") || k.symbol in p.executed || (!k.isExit && k.symbol in exited) then p
    else if !k.direct && k.stop then p.(stopped := true)
    else if !Allowed(CheckImpact(c, p.approved, k.symbol, k.isBuy, k.notional)) || !k.placed then p
    else Progress(p.orders + 1, p.executed + {k.symbol},
                  if k.isBuy then p.approved + [Approved(k)] else p.approved, false)
  }

  function Turns(c: Cycle, exited: set<Symbol>, maxOrders: nat, ks: seq<Candidate>): Progress {
    if ks == [] then Progress(0, {}, [], false)
    else Turn(c, exited, maxOrders, Turns(c, exited, maxOrders, ks[..|ks| - 1]), ks[|ks| - 1])
  }

  lemma {:induction false} StoppedStays(c: Cycle, exited: set<Symbol>, maxOrders: nat, ks: seq<Candidate>, n: nat)
    requires n <= |ks| && Turns(c, exited, maxOrders, ks[..n]).stopped
    ensures Turns(c, exited, maxOrders, ks) == Turns(c, exited, maxOrders, ks[..n])
    decreases |ks|
  {
    if n < |ks| {
      assert ks[..|ks| - 1][..n] == ks[..n];
      StoppedStays(c, exited, maxOrders, ks[..|ks| - 1], n);
    } else {
      assert ks[..n] == ks;
    }
  }

  method RunCandidates(c: Cycle, exited: set<Symbol>, maxOrders: nat, selected: seq<Candidate>)
    returns (orders: nat, executed: set<Symbol>, approved: seq<Exposure>)
    ensures var p := Turns(c, exited, maxOrders, selected);
            orders == p.orders && executed == p.executed && approved == p.approved
  {
    orders, executed, approved := 0, {}, [];
    for n := 0 to |selected|
      invariant Turns(c, exited, maxOrders, selected[..n]) == Progress(orders, executed, approved, false)
    {
      var k := selected[n];
      assert selected[..n + 1][..n] == selected[..n];
      if orders >= maxOrders {
        StoppedStays(c, exited, maxOrders, selected, n + 1);
        return;
      }
      if k.symbol == Ticker("") || k.symbol in executed { continue; }
      if !k.isExit && k.symbol in exited { continue; }
      if !k.direct && k.stop {
        StoppedStays(c, exited, maxOrders, selected, n + 1);
        return;
      }
      var impact := CheckPortfolioImpact(c, approved, k.symbol, k.isBuy, k.notional);
      if !Allowed(impact) { continue; }
      if !k.placed { continue; }
      orders := orders + 1;
      if k.isBuy { approved := approved + [Approved(k)]; }
      executed := executed + {k.symbol};
    }
    assert selected[..|selected|] == selected;
  }
}
