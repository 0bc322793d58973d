/** Candidate selection: the per-symbol merge of `backend/execution_brain.py` and the
    greedy budget of `backend/portfolio_allocator.py`. */
module Candidates {
  import opened Options
  import opened Rounding
  import opened Symbols

  const RISK_PER_TRADE_PCT: real := 1.0
  const MAX_DAILY_RISK: real := 0.03

  datatype Candidate = Candidate(symbol: string, score: real, riskPct: Option<real>, isExit: bool, payload: string)

  function UpperChar(c: char): char { if 'a' <= c <= 'z' then 'A' + (c - 'a') else c }

  function Upper(s: string): string { if s == "" then "" else [UpperChar(s[0])] + Upper(s[1..]) }

  /** The upper-cased symbol under which candidates compete; empty ones are skipped. */
  function Key(c: Candidate): Symbol { Ticker(Upper(c.symbol)) }

  predicate Named(c: Candidate) { c.symbol != "" }

  /** Strict order of `_priority`: exits outrank entries and tie with each other. */
  predicate Higher(a: Candidate, b: Candidate) {
    if a.isExit then !b.isExit else !b.isExit && a.score > b.score
  }

  // ------------------------------------------------------------------ merge

  /** Position of a key in the merged dictionary, or its size. */
  function IndexOf(merged: seq<Candidate>, k: Symbol): (i: nat)
    ensures i <= |merged|
    ensures i < |merged| ==> Key(merged[i]) == k
    ensures forall j :: 0 <= j < i ==> Key(merged[j]) != k
  {
    if merged == [] || Key(merged[0]) == k then 0 else 1 + IndexOf(merged[1..], k)
  }

  /** One turn of the merge loop; a replaced entry keeps its place in the dictionary. */
  function Put(merged: seq<Candidate>, c: Candidate): seq<Candidate> {
    if !Named(c) then merged
    else
      var i := IndexOf(merged, Key(c));
      if i == |merged| then merged + [c]
      else if Higher(c, merged[i]) then merged[i := c]
      else merged
  }

  function MergeInto(merged: seq<Candidate>, xs: seq<Candidate>): seq<Candidate> {
    if xs == [] then merged else Put(MergeInto(merged, xs[..|xs| - 1]), xs[|xs| - 1])
  }

  function Merge(xs: seq<Candidate>): seq<Candidate> { MergeInto([], xs) }

  method MergeCandidates(xs: seq<Candidate>) returns (merged: seq<Candidate>)
    ensures merged == Merge(xs)
  {
    merged := [];
    for n := 0 to |xs|
      invariant merged == Merge(xs[..n])
    {
      var candidate := xs[n];
      assert xs[..n + 1][..n] == xs[..n];
      if Named(candidate) {
        var i := IndexOf(merged, Key(candidate));
        if i == |merged| {
          merged := merged + [candidate];
        } else if Higher(candidate, merged[i]) {
          merged := merged[i := candidate];
        }
      }
    }
    assert xs[..|xs|] == xs;
  }

  /** The merge part of `drain_direct_candidates`. */
  method DrainDirectCandidates(rows: seq<Candidate>) returns (drained: seq<Candidate>)
    ensures drained == Merge(rows)
  {
    drained := MergeCandidates(rows);
  }

  // ------------------------------------------------------------------ allocation

  datatype Allocated = Allocated(candidate: Candidate, risk: real)

  function Risk(c: Candidate): real { if c.riskPct.Some? then c.riskPct.value else RISK_PER_TRADE_PCT }

  /** Python's `sorted(..., reverse=True)` by score: a candidate goes behind all that
      score at least as high, so ties keep their order. */
  function InsertByScore(sorted: seq<Candidate>, c: Candidate): seq<Candidate> {
    if sorted == [] || sorted[|sorted| - 1].score >= c.score then sorted + [c]
    else InsertByScore(sorted[..|sorted| - 1], c) + [sorted[|sorted| - 1]]
  }

  function SortByScore(xs: seq<Candidate>): seq<Candidate> {
    if xs == [] then [] else InsertByScore(SortByScore(xs[..|xs| - 1]), xs[|xs| - 1])
  }

  /** The candidates kept by one pass over a list, given what is already consumed. */
  function Greedy(xs: seq<Candidate>, consumed: real, budget: real): seq<Candidate> {
    if xs == [] then []
    else if consumed + Risk(xs[0]) > budget then Greedy(xs[1..], consumed, budget)
    else [xs[0]] + Greedy(xs[1..], consumed + Risk(xs[0]), budget)
  }

  function TotalRisk(xs: seq<Candidate>): real {
    if xs == [] then 0.0 else Risk(xs[0]) + TotalRisk(xs[1..])
  }

  function TotalScore(xs: seq<Candidate>): real {
    if xs == [] then 0.0 else xs[0].score + TotalScore(xs[1..])
  }

  function Select(candidates: seq<Candidate>, budget: real): seq<Candidate> {
    Greedy(SortByScore(candidates), 0.0, budget)
  }

  function Stamp(xs: seq<Candidate>): seq<Allocated> {
    seq(|xs|, i requires 0 <= i < |xs| => Allocated(xs[i], Round3(Risk(xs[i]))))
  }

  /** `allocate_candidates`. */
  method AllocateCandidates(candidates: seq<Candidate>, maxTotalRiskPct: Option<real>) returns (kept: seq<Allocated>)
    ensures kept == Stamp(Select(candidates, if maxTotalRiskPct.Some? then maxTotalRiskPct.value else MAX_DAILY_RISK * 100.0))
  {
    var budget := if maxTotalRiskPct.Some? then maxTotalRiskPct.value else MAX_DAILY_RISK * 100.0;
    kept := [];
    var consumed := 0.0;
    var sorted := SortByScore(candidates);
    ghost var taken: seq<Candidate> := [];
    for i := 0 to |sorted|
      invariant kept == Stamp(taken)
      invariant Greedy(sorted, 0.0, budget) == taken + Greedy(sorted[i..], consumed, budget)
    {
      var candidate := sorted[i];
      assert sorted[i..][0] == candidate && sorted[i..][1..] == sorted[i + 1..];
      var riskPct := Risk(candidate);
      if consumed + riskPct > budget { continue; }
      consumed := consumed + riskPct;
      kept := kept + [Allocated(candidate, Round3(riskPct))];
      assert taken + ([candidate] + Greedy(sorted[i + 1..], consumed, budget))
          == taken + [candidate] + Greedy(sorted[i + 1..], consumed, budget);
      taken := taken + [candidate];
    }
    assert taken + Greedy(sorted[|sorted|..], consumed, budget) == taken;
  }

  /** `choose_candidates`. */
  method ChooseCandidates(rules: seq<Candidate>, direct: seq<Candidate>) returns (chosen: seq<Allocated>)
    ensures chosen == Stamp(Select(Merge(rules + direct), MAX_DAILY_RISK * 100.0))
  {
    var merged := MergeCandidates(rules + direct);
    chosen := AllocateCandidates(merged, None);
  }
}
