/** What the concentration guard keeps over a whole cycle. */
module ConcentrationTheorems {
  import opened Money
  import opened Options
  import opened Rounding
  import opened Symbols
  import opened Concentration

  // ------------------------------------------------------------------ what is at stake

  /** What one entry adds to a sector: its worth if it is positive, the market value or, where
      that is zero, quantity times price. An entry without a sector is in Other. */
  function Stake(c: Cycle, e: Exposure, s: Sector, buysOnly: bool): real {
    var sector := match c.sectorOf(e.symbol) case None => Sector("Other") case Some(name) => name;
    var worth := if e.marketValue == 0.0 then e.qty * e.marketPrice else e.marketValue;
    if sector == s && (buysOnly ==> e.isBuy) && worth > 0.0 then worth else 0.0
  }

  /** The stakes of a list in one sector, of the buys only or of all. */
  function Notional(c: Cycle, xs: seq<Exposure>, s: Sector, buysOnly: bool): real {
    if xs == [] then 0.0 else Stake(c, xs[0], s, buysOnly) + Notional(c, xs[1..], s, buysOnly)
  }

  /** All positions, the pending buys, the approved buys. */
  function AtStake(c: Cycle, approved: seq<Exposure>, s: Sector): real {
    Notional(c, c.positions, s, false) + Notional(c, c.pending, s, true) + Notional(c, approved, s, true)
  }

  function InPercent(amount: real, netLiq: real): real
    requires netLiq > 0.0
  {
    100.0 * amount / netLiq
  }

  /** True weight of a sector after some approvals, in percent. */
  function Weight(c: Cycle, approved: seq<Exposure>, s: Sector): real
    requires c.netLiq > 0.0
  {
    InPercent(AtStake(c, approved, s), c.netLiq)
  }

  lemma {:induction false} NotionalLast(c: Cycle, xs: seq<Exposure>, e: Exposure, s: Sector, buysOnly: bool)
    ensures Notional(c, xs + [e], s, buysOnly) == Notional(c, xs, s, buysOnly) + Stake(c, e, s, buysOnly)
  {
    if xs == [] {
      assert [e][1..] == [] && xs + [e] == [e];
    } else {
      assert (xs + [e])[1..] == xs[1..] + [e];
      NotionalLast(c, xs[1..], e, s, buysOnly);
    }
  }

  lemma {:induction false} StakeIs(c: Cycle, e: Exposure, s: Sector, buysOnly: bool)
    ensures Stake(c, e, s, buysOnly)
         == if Bucket(c, e.symbol) == s && (buysOnly ==> e.isBuy) then Counted(e) else 0.0
  {
  }

  lemma {:induction false} SumLast(c: Cycle, xs: seq<Exposure>, e: Exposure, s: Sector)
    ensures SectorSum(c, xs + [e], s) == SectorSum(c, xs, s) + if Bucket(c, e.symbol) == s then Counted(e) else 0.0
  {
    assert (xs + [e])[..|xs|] == xs;
  }

  /** Adding a list adds its notional. */
  lemma {:induction false} SumOfMore(c: Cycle, all: seq<Exposure>, xs: seq<Exposure>, s: Sector)
    ensures SectorSum(c, all + xs, s) == SectorSum(c, all, s) + Notional(c, xs, s, false)
  {
    if xs == [] {
      assert all + xs == all;
    } else {
      var init, e := xs[..|xs| - 1], xs[|xs| - 1];
      SumOfMore(c, all, init, s);
      assert all + xs == (all + init) + [e] && xs == init + [e];
      SumLast(c, all + init, e, s);
      NotionalLast(c, init, e, s, false);
      StakeIs(c, e, s, false);
    }
  }

  lemma {:induction false} SumOfBuys(c: Cycle, all: seq<Exposure>, xs: seq<Exposure>, s: Sector)
    ensures SectorSum(c, all + Buys(xs), s) == SectorSum(c, all, s) + Notional(c, xs, s, true)
  {
    if xs == [] {
      assert all + Buys(xs) == all;
    } else {
      var init, e := xs[..|xs| - 1], xs[|xs| - 1];
      SumOfBuys(c, all, init, s);
      assert xs == init + [e];
      NotionalLast(c, init, e, s, true);
      StakeIs(c, e, s, true);
      if e.isBuy {
        assert all + Buys(xs) == (all + Buys(init)) + [e];
        SumLast(c, all + Buys(init), e, s);
      } else {
        assert Buys(xs) == Buys(init);
      }
    }
  }

  /** The sum of the check is what is at stake. */
  lemma {:induction false} SumIsAtStake(c: Cycle, approved: seq<Exposure>, s: Sector)
    ensures SectorSum(c, Exposed(c, approved), s) == AtStake(c, approved, s)
  {
    assert [] + c.positions == c.positions;
    SumOfMore(c, [], c.positions, s);
    SumOfBuys(c, c.positions, c.pending, s);
    SumOfBuys(c, c.positions + Buys(c.pending), approved, s);
  }

  lemma {:induction false} PercentIs(amount: real, netLiq: real)
    requires netLiq > 0.0
    ensures Percent(amount, netLiq) == InPercent(amount, netLiq)
  {
  }

  lemma {:induction false} PercentAdds(a: real, b: real, netLiq: real)
    requires netLiq > 0.0
    ensures Percent(a + b, netLiq) == Percent(a, netLiq) + Percent(b, netLiq)
  {
  }

  /** One more approved buy. */
  lemma {:induction false} ApprovalAdds(c: Cycle, approved: seq<Exposure>, k: Candidate, s: Sector)
    ensures AtStake(c, approved + [Approved(k)], s) == AtStake(c, approved, s)
                 + (if Bucket(c, k.symbol) == s then Counted(Approved(k)) else 0.0)
  {
    NotionalLast(c, approved, Approved(k), s, true);
    StakeIs(c, Approved(k), s, true);
  }

  /** A candidate whose sector the check can see. */
  predicate SectorSeen(c: Cycle, k: Candidate, s: Sector) { c.sectorOf(k.symbol).Some? || s != OTHER }

  /** The check rounds the weight that is there and adds the candidate's share to it: that
      hides at most half a rounding step. */
  lemma {:induction false} ProjectionBounds(
      before: real, after: real, notional: real, netLiq: real, limit: real, start: real)
    requires netLiq > 0.0 && InPercent(before, netLiq) <= Max(start, limit + HALF_STEP_2)
    requires after == before
      || (after == before + notional && Round2(InPercent(before, netLiq)) + InPercent(notional, netLiq) <= limit)
    ensures InPercent(after, netLiq) <= Max(start, limit + HALF_STEP_2)
  {
    PercentIs(before, netLiq);
    PercentIs(notional, netLiq);
    PercentIs(after, netLiq);
    if after != before { PercentAdds(before, notional, netLiq); }
  }

  /** A turn that approves adds the candidate to its own sector, within the limit. */
  lemma {:induction false} TurnAdds(c: Cycle, exited: set<Symbol>, maxOrders: nat, p: Progress, k: Candidate, s: Sector)
    requires c.netLiq > 0.0 && SectorSeen(c, k, s)
    ensures var before := AtStake(c, p.approved, s);
            var after := AtStake(c, Turn(c, exited, maxOrders, p, k).approved, s);
            || after == before
            || (after == before + k.notional
                && Round2(InPercent(before, c.netLiq)) + InPercent(k.notional, c.netLiq) <= c.limits.maxSectorPct)
  {
    if Turn(c, exited, maxOrders, p, k).approved != p.approved {
      ApprovedWasAdmitted(c, exited, maxOrders, p, k);
      ApprovalAdds(c, p.approved, k, s);
    }
  }

  /** Over the whole cycle, whatever is selected and placed: every sector the check can see,
      with its positions, pending buys and approvals, ends at most at the larger of its
      starting weight and the limit plus half a rounding step. */
  lemma {:induction false} SectorBound(c: Cycle, exited: set<Symbol>, maxOrders: nat, ks: seq<Candidate>, s: Sector)
    requires c.netLiq > 0.0
    requires forall k :: k in ks ==> SectorSeen(c, k, s)
    ensures Weight(c, Turns(c, exited, maxOrders, ks).approved, s)
         <= Max(Weight(c, [], s), c.limits.maxSectorPct + HALF_STEP_2)
  {
    if ks == [] {
    } else {
      var init, k := ks[..|ks| - 1], ks[|ks| - 1];
      assert k in ks;
      SectorBound(c, exited, maxOrders, init, s);
      var p := Turns(c, exited, maxOrders, init);
      TurnAdds(c, exited, maxOrders, p, k, s);
      var before := AtStake(c, p.approved, s);
      var after := AtStake(c, Turn(c, exited, maxOrders, p, k).approved, s);
      ProjectionBounds(before, after, k.notional, c.netLiq, c.limits.maxSectorPct, Weight(c, [], s));
    }
  }

  // ------------------------------------------------------------------ who counts as correlated

  /** Place i is the first one of the symbol. */
  predicate FirstAt(symbols: seq<Symbol>, s: Symbol, i: nat) {
    i < |symbols| && symbols[i] == s && forall k :: 0 <= k < i ==> symbols[k] != s
  }

  /** The matrix has an entry for the two different symbols, beyond the threshold on either side. */
  ghost predicate Linked(m: Matrix, a: Symbol, b: Symbol, threshold: real) {
    a != b && exists i: nat, j: nat :: FirstAt(m.symbols, a, i) && FirstAt(m.symbols, b, j) && Beyond(m, i, j, threshold)
  }

  predicate Beyond(m: Matrix, i: nat, j: nat, threshold: real) {
    && i < |m.rows| && j < |m.rows[i]| && m.rows[i][j].Some?
    && (m.rows[i][j].value > threshold || -m.rows[i][j].value > threshold)
  }

  lemma {:induction false} LinkedIsCorrelated(m: Matrix, a: Symbol, b: Symbol, threshold: real)
    ensures Linked(m, a, b, threshold) <==> Correlated(m, a, b, threshold)
  {
    var i, j := IndexIn(m.symbols, a), IndexIn(m.symbols, b);
    if Correlated(m, a, b, threshold) {
      assert FirstAt(m.symbols, a, i) && FirstAt(m.symbols, b, j) && Beyond(m, i, j, threshold);
    }
    if Linked(m, a, b, threshold) {
      var x: nat, y: nat :| FirstAt(m.symbols, a, x) && FirstAt(m.symbols, b, y) && Beyond(m, x, y, threshold);
      assert x == i && y == j;
    }
  }

  /** A position, a pending buy or an approved buy of the symbol. */
  ghost predicate Involved(c: Cycle, approved: seq<Exposure>, s: Symbol) {
    || (exists e :: e in c.positions && e.symbol == s)
    || (exists e :: e in c.pending && e.isBuy && e.symbol == s)
    || (exists e :: e in approved && e.isBuy && e.symbol == s)
  }

  lemma {:induction false} BuysAre(xs: seq<Exposure>, e: Exposure)
    ensures e in Buys(xs) <==> e in xs && e.isBuy
  {
    if xs == [] {
    } else {
      assert xs == xs[..|xs| - 1] + [xs[|xs| - 1]];
      BuysAre(xs[..|xs| - 1], e);
    }
  }

  lemma {:induction false} RelevantIs(c: Cycle, approved: seq<Exposure>, s: Symbol, x: Symbol)
    ensures x in Relevant(c, approved, s) <==> Involved(c, approved, x) && x != s && x != Ticker("")
  {
    var all := Exposed(c, approved);
    if x in SymbolsOf(all) {
      var e :| e in all && e.symbol == x;
      BuysAre(c.pending, e);
      BuysAre(approved, e);
      assert e in c.positions || e in Buys(c.pending) || e in Buys(approved);
    }
    if e :| e in c.positions && e.symbol == x { assert e in all; }
    if e :| e in c.pending && e.isBuy && e.symbol == x {
      BuysAre(c.pending, e);
      assert e in all;
    }
    if e :| e in approved && e.isBuy && e.symbol == x {
      BuysAre(approved, e);
      assert e in all;
    }
  }

  /** All symbols that could be involved. */
  function Everyone(c: Cycle, approved: seq<Exposure>): set<Symbol> {
    SymbolsOf(c.positions) + SymbolsOf(c.pending) + SymbolsOf(approved)
  }

  /** The other named symbols involved that are linked with this one. */
  ghost function LinkedWith(c: Cycle, approved: seq<Exposure>, s: Symbol): set<Symbol>
    requires c.matrix.Some?
  {
    set x | x in Everyone(c, approved)
      && Involved(c, approved, x) && x != Ticker("") && Linked(c.matrix.value, s, x, c.limits.corrThreshold)
  }

  lemma {:induction false} LinkedWithIs(c: Cycle, approved: seq<Exposure>, s: Symbol)
    requires c.matrix.Some?
    ensures LinkedWith(c, approved, s)
         == Correlates(c.matrix.value, s, Relevant(c, approved, s), c.limits.corrThreshold)
  {
    var theirs := Correlates(c.matrix.value, s, Relevant(c, approved, s), c.limits.corrThreshold);
    forall x ensures x in LinkedWith(c, approved, s) <==> x in theirs {
      RelevantIs(c, approved, s, x);
      LinkedIsCorrelated(c.matrix.value, s, x, c.limits.corrThreshold);
    }
  }

  // ------------------------------------------------------------------ who is executed

  /** What the check asks of a buy, over the approvals of the cycle so far: room in its sector,
      by the rounded weight that is there, and fewer linked symbols than the maximum. */
  ghost predicate Admitted(c: Cycle, approved: seq<Exposure>, s: Symbol, notional: real) {
    var sector := c.sectorOf(s);
    && (c.netLiq > 0.0 && sector.Some? ==>
          Round2(Weight(c, approved, sector.value)) + InPercent(notional, c.netLiq) <= c.limits.maxSectorPct)
    && (c.matrix.None? ==> sector.Some?)
    && (c.matrix.Some? ==> |LinkedWith(c, approved, s)| < c.limits.maxCorrelated)
  }

  lemma {:induction false} AllowedIffAdmitted(c: Cycle, approved: seq<Exposure>, s: Symbol, notional: real)
    ensures Allowed(CheckImpact(c, approved, s, true, notional)) <==> Admitted(c, approved, s, notional)
  {
    var sector := c.sectorOf(s);
    if sector.Some? && c.netLiq > 0.0 {
      SumIsAtStake(c, approved, sector.value);
      PercentIs(AtStake(c, approved, sector.value), c.netLiq);
      PercentIs(notional, c.netLiq);
    }
    if c.matrix.Some? { LinkedWithIs(c, approved, s); }
  }

  lemma {:induction false} ApprovedWasAdmitted(
      c: Cycle, exited: set<Symbol>, maxOrders: nat, p: Progress, k: Candidate)
    requires Turn(c, exited, maxOrders, p, k).approved != p.approved
    ensures Turn(c, exited, maxOrders, p, k).approved == p.approved + [Approved(k)]
    ensures k.isBuy && Admitted(c, p.approved, k.symbol, k.notional)
  {
    AllowedIffAdmitted(c, p.approved, k.symbol, k.notional);
  }

  lemma {:induction false} OnlyOwnSymbol(c: Cycle, exited: set<Symbol>, maxOrders: nat, p: Progress, k: Candidate, s: Symbol)
    requires k.symbol != s
    ensures s in Turn(c, exited, maxOrders, p, k).executed <==> s in p.executed
  {
  }

  lemma {:induction false} UnlistedNotExecuted(
      c: Cycle, exited: set<Symbol>, maxOrders: nat, ks: seq<Candidate>, s: Symbol)
    requires forall m :: 0 <= m < |ks| ==> ks[m].symbol != s
    ensures s !in Turns(c, exited, maxOrders, ks).executed
  {
    if ks == [] {
    } else {
      var init, last := ks[..|ks| - 1], ks[|ks| - 1];
      UnlistedNotExecuted(c, exited, maxOrders, init, s);
      OnlyOwnSymbol(c, exited, maxOrders, Turns(c, exited, maxOrders, init), last, s);
    }
  }

  /** The loop still runs when the candidate comes up, and nothing outside the guard stops it. */
  ghost predicate Reached(exited: set<Symbol>, maxOrders: nat, p: Progress, k: Candidate) {
    && !p.stopped && p.orders < maxOrders && k.symbol != Ticker("")
    && (k.isExit || k.symbol !in exited) && (k.direct || !k.stop) && k.placed
  }

  /** Who is executed in a cycle, for candidates listed once, as the merge leaves them: a
      sale whenever its turn comes, a buy exactly when it is admitted next to what the turns
      before it approved. No later turn revises it. */
  lemma {:induction false} ExecutedIff(c: Cycle, exited: set<Symbol>, maxOrders: nat, ks: seq<Candidate>, n: nat)
    requires n < |ks| && forall m :: 0 <= m < |ks| && m != n ==> ks[m].symbol != ks[n].symbol
    ensures var p := Turns(c, exited, maxOrders, ks[..n]);
            var k := ks[n];
            k.symbol in Turns(c, exited, maxOrders, ks).executed
            <==> Reached(exited, maxOrders, p, k)
                 && (k.isBuy ==> Admitted(c, p.approved, k.symbol, k.notional))
    decreases |ks|
  {
    var init, last := ks[..|ks| - 1], ks[|ks| - 1];
    if n < |init| {
      assert init[..n] == ks[..n];
      ExecutedIff(c, exited, maxOrders, init, n);
      OnlyOwnSymbol(c, exited, maxOrders, Turns(c, exited, maxOrders, init), last, ks[n].symbol);
    } else {
      UnlistedNotExecuted(c, exited, maxOrders, init, last.symbol);
      AllowedIffAdmitted(c, Turns(c, exited, maxOrders, init).approved, last.symbol, last.notional);
    }
  }

  /** No buy over a limit is executed in a cycle, whatever is selected: every approval was
      admitted next to the approvals before it. */
  lemma {:induction false} ApprovalsAdmitted(
      c: Cycle, exited: set<Symbol>, maxOrders: nat, ks: seq<Candidate>, i: nat)
    requires i < |Turns(c, exited, maxOrders, ks).approved|
    ensures var approved := Turns(c, exited, maxOrders, ks).approved;
            Admitted(c, approved[..i], approved[i].symbol, approved[i].marketValue)
  {
    var init, last := ks[..|ks| - 1], ks[|ks| - 1];
    var p, q := Turns(c, exited, maxOrders, init), Turns(c, exited, maxOrders, ks);
    if i < |p.approved| {
      ApprovalsAdmitted(c, exited, maxOrders, init, i);
      assert q.approved[..i] == p.approved[..i] && q.approved[i] == p.approved[i];
    } else {
      ApprovedWasAdmitted(c, exited, maxOrders, p, last);
      assert q.approved[..i] == p.approved && q.approved[i] == Approved(last);
    }
  }

  // ------------------------------------------------------------------ correlation

  /** The earlier symbols correlated with the approval at position k. */
  ghost function Earlier(c: Cycle, approved: seq<Exposure>, k: nat): set<Symbol>
    requires c.matrix.Some? && k < |approved|
  {
    LinkedWith(c, approved[..k], approved[k].symbol)
  }

  /** All correlated pairs whose later member was approved. */
  ghost function Pairs(c: Cycle, approved: seq<Exposure>, n: nat): nat
    requires c.matrix.Some? && n <= |approved|
  {
    if n == 0 then 0 else Pairs(c, approved, n - 1) + |Earlier(c, approved, n - 1)|
  }

  function Times(n: nat, x: int): int { if n == 0 then 0 else Times(n - 1, x) + x }

  lemma {:induction false} PairsUpTo(c: Cycle, approved: seq<Exposure>, n: nat)
    requires c.matrix.Some? && n <= |approved|
    requires forall k: nat :: k < n ==> |Earlier(c, approved, k)| < c.limits.maxCorrelated
    ensures Pairs(c, approved, n) <= Times(n, c.limits.maxCorrelated - 1)
  {
    if n == 0 {
    } else {
      PairsUpTo(c, approved, n - 1);
    }
  }

  /** With a matrix, correlated pairs grow by at most max_correlated − 1 per approval. */
  lemma {:induction false} CorrelationBound(c: Cycle, exited: set<Symbol>, maxOrders: nat, ks: seq<Candidate>)
    requires c.matrix.Some?
    ensures var approved := Turns(c, exited, maxOrders, ks).approved;
            Pairs(c, approved, |approved|) <= Times(|approved|, c.limits.maxCorrelated - 1)
  {
    var approved := Turns(c, exited, maxOrders, ks).approved;
    forall k: nat | k < |approved| ensures |Earlier(c, approved, k)| < c.limits.maxCorrelated {
      ApprovalsAdmitted(c, exited, maxOrders, ks, k);
    }
    PairsUpTo(c, approved, |approved|);
  }

  // ------------------------------------------------------------------ orders

  predicate Counts(p: Progress, maxOrders: nat) { p.orders <= maxOrders && |p.executed| == p.orders }

  lemma {:induction false} TurnCounts(c: Cycle, exited: set<Symbol>, maxOrders: nat, p: Progress, k: Candidate)
    requires Counts(p, maxOrders)
    ensures Counts(Turn(c, exited, maxOrders, p, k), maxOrders)
  {
    if k.symbol !in p.executed { assert |p.executed + {k.symbol}| == |p.executed| + 1; }
  }

  lemma {:induction false} OrdersCounted(c: Cycle, exited: set<Symbol>, maxOrders: nat, ks: seq<Candidate>)
    ensures Counts(Turns(c, exited, maxOrders, ks), maxOrders)
  {
    if ks == [] {
    } else {
      var init, last := ks[..|ks| - 1], ks[|ks| - 1];
      OrdersCounted(c, exited, maxOrders, init);
      TurnCounts(c, exited, maxOrders, Turns(c, exited, maxOrders, init), last);
    }
  }

  ghost predicate DistinctSymbols(xs: seq<Exposure>, within: set<Symbol>) {
    && (forall i, j :: 0 <= i < j < |xs| ==> xs[i].symbol != xs[j].symbol)
    && (forall i :: 0 <= i < |xs| ==> xs[i].symbol in within)
  }

  lemma {:induction false} TurnKeepsDistinct(c: Cycle, exited: set<Symbol>, maxOrders: nat, p: Progress, k: Candidate)
    requires DistinctSymbols(p.approved, p.executed)
    ensures var q := Turn(c, exited, maxOrders, p, k); DistinctSymbols(q.approved, q.executed)
  {
    var q := Turn(c, exited, maxOrders, p, k);
    if q.approved != p.approved {
      assert q.approved == p.approved + [Approved(k)] && k.symbol !in p.executed;
    } else {
      assert p.executed <= q.executed;
    }
  }

  lemma {:induction false} ApprovedOnce(c: Cycle, exited: set<Symbol>, maxOrders: nat, ks: seq<Candidate>)
    ensures var p := Turns(c, exited, maxOrders, ks); DistinctSymbols(p.approved, p.executed)
  {
    if ks == [] {
    } else {
      ApprovedOnce(c, exited, maxOrders, ks[..|ks| - 1]);
      TurnKeepsDistinct(c, exited, maxOrders, Turns(c, exited, maxOrders, ks[..|ks| - 1]), ks[|ks| - 1]);
    }
  }

  lemma {:induction false} NoChurn(
      c: Cycle, exited: set<Symbol>, maxOrders: nat, ks: seq<Candidate>, s: Symbol)
    returns (k: Candidate)
    requires s in Turns(c, exited, maxOrders, ks).executed && s in exited
    ensures k in ks && k.symbol == s && k.isExit
  {
    var init, last := ks[..|ks| - 1], ks[|ks| - 1];
    if s in Turns(c, exited, maxOrders, init).executed {
      k := NoChurn(c, exited, maxOrders, init, s);
    } else {
      k := last;
    }
  }

  lemma {:induction false} TurnRecords(c: Cycle, exited: set<Symbol>, maxOrders: nat, p: Progress, k: Candidate)
    ensures var q := Turn(c, exited, maxOrders, p, k);
            q.approved == if k.isBuy && q.executed != p.executed then p.approved + [Approved(k)] else p.approved
  {
    assert k.symbol in p.executed + {k.symbol};
  }

  /** The approvals that later checks count are the executed buys of the cycle, each with its
      notional, for candidates listed once. */
  lemma {:induction false} ApprovedIffExecuted(
      c: Cycle, exited: set<Symbol>, maxOrders: nat, ks: seq<Candidate>, n: nat, e: Exposure)
    requires n < |ks| && forall m :: 0 <= m < |ks| && m != n ==> ks[m].symbol != ks[n].symbol
    requires e.symbol == ks[n].symbol
    ensures var p := Turns(c, exited, maxOrders, ks);
            e in p.approved <==> ks[n].isBuy && ks[n].symbol in p.executed
                                 && e == Exposure(ks[n].symbol, ks[n].notional, 0.0, 0.0, true)
    decreases |ks|
  {
    var init, last := ks[..|ks| - 1], ks[|ks| - 1];
    var p := Turns(c, exited, maxOrders, init);
    TurnRecords(c, exited, maxOrders, p, last);
    if n < |init| {
      ApprovedIffExecuted(c, exited, maxOrders, init, n, e);
      OnlyOwnSymbol(c, exited, maxOrders, p, last, ks[n].symbol);
    } else {
      UnlistedNotExecuted(c, exited, maxOrders, init, last.symbol);
      ApprovedOnce(c, exited, maxOrders, init);
    }
  }

  /** The order cap holds, each symbol is executed at most once, approvals are executed
      buys, and no entry is executed for a symbol that exited this cycle. */
  lemma {:induction false} OrdersCapped(c: Cycle, exited: set<Symbol>, maxOrders: nat, ks: seq<Candidate>)
    ensures var p := Turns(c, exited, maxOrders, ks);
            && p.orders <= maxOrders && |p.executed| == p.orders && DistinctSymbols(p.approved, p.executed)
            && (forall s :: s in p.executed && s in exited ==> exists k :: k in ks && k.symbol == s && k.isExit)
  {
    OrdersCounted(c, exited, maxOrders, ks);
    ApprovedOnce(c, exited, maxOrders, ks);
    forall s | s in Turns(c, exited, maxOrders, ks).executed && s in exited
      ensures exists k :: k in ks && k.symbol == s && k.isExit
    {
      var k := NoChurn(c, exited, maxOrders, ks, s);
    }
  }
}
