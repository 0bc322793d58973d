/** Rule conditions and their two caches: `backend/rule_engine.py` and `resolve_value` of
    `backend/indicators.py`. */
module IndicatorCache {
  import opened Options
  import opened Symbols
  import opened Crossings

  /** Bars of one symbol. `labels` is the frame's index, `other` its remaining columns. */
  datatype Frame = Frame(labels: seq<int>, closes: seq<Option<real>>, other: seq<seq<real>>)

  datatype Indicator = RSI | SMA | EMA | MACD | BBANDS | ATR | STOCH | PRICE | VOLUME | CHANGE_PCT

  datatype Arg = Whole(n: int) | Decimal(x: real) | Word(text: string)

  /** Parameters as a dictionary: order of insertion is already forgotten. */
  datatype Params = Params(entries: map<string, Arg>)

  datatype Operator = CrossesAbove | CrossesBelow | Gt | Lt | Ge | Le | Eq | Unknown

  datatype Operand = Number(x: real) | Text(text: string)

  datatype Condition = Condition(indicator: Indicator, params: Params, op: Operator, value: Operand)

  /** What the model leaves to pandas and Python: `calculate` (`None` is an exception), the
      two further MACD lines, `str.upper`, `int(...)`, and the printed form of a dictionary. */
  datatype Library = Library(
    calculate: (Frame, string, Params) -> Option<Series>,
    signalLine: Frame -> Series,
    histogram: Frame -> Series,
    upper: string -> string,
    parse: string -> Option<int>,
    show: Params -> string)

  function Name(i: Indicator): string {
    match i
    case RSI => "RSI" case SMA => "SMA" case EMA => "EMA" case MACD => "MACD" case BBANDS => "BBANDS"
    case ATR => "ATR" case STOCH => "STOCH" case PRICE => "PRICE" case VOLUME => "VOLUME"
    case CHANGE_PCT => "CHANGE_PCT"
  }

  function Compute(lib: Library, f: Frame, c: Condition): Option<Series> {
    lib.calculate(f, Name(c.indicator), c.params)
  }

  // ------------------------------------------------------------------ right-hand side

  /** `Failed` is an exception that leaves `resolve_value`. */
  datatype Rhs = Scalar(x: real) | NotANumber | Line(series: Series) | Failed

  function Find(s: string, c: char): (i: nat)
    ensures i <= |s| && (i < |s| ==> s[i] == c) && forall k :: 0 <= k < i ==> s[k] != c
  {
    if s == "" || s[0] == c then 0 else 1 + Find(s[1..], c)
  }

  function After(s: string, i: nat): string { if i < |s| then s[i + 1..] else "" }

  function Before(s: string, i: nat): string { if i <= |s| then s[..i] else s }

  /** The band and the length text of a three-part BBANDS selector. */
  function BandSelector(v: string): Option<(string, string)> {
    var rest := After(v, 6);
    var j := Find(rest, '_');
    var band := Before(rest, j);
    if Before(v, 7) == "BBANDS_" && j < |rest| && '_' !in After(rest, j) && band in {"UPPER", "MID", "LOWER"}
    then Some((if band == "UPPER" then "upper" else if band == "MID" then "mid" else "lower", After(rest, j)))
    else None
  }

  /** What a cacheable selector stands for on this frame. */
  function Derived(lib: Library, f: Frame, v: string): Rhs {
    if v == "MACD_SIGNAL" then Line(lib.signalLine(f))
    else if v == "MACD_HIST" then Line(lib.histogram(f))
    else if BandSelector(v).Some? then
      var (band, text) := BandSelector(v).value;
      match lib.parse(text)
      case None => Failed
      case Some(n) =>
        var s := lib.calculate(f, "BBANDS", Params(map["length" := Whole(n), "band" := Word(band)]));
        if s.Some? then Line(s.value) else Failed
    else
      var i := Find(v, '_');
      match lib.parse(After(v, i))
      case None => NotANumber
      case Some(n) =>
        var s := lib.calculate(f, Before(v, i), Params(map["length" := Whole(n)]));
        if s.Some? then Line(s.value) else NotANumber
  }

  function Closes(f: Frame): Series {
    seq(|f.labels|, i requires 0 <= i < |f.labels| => Point(f.labels[i], if i < |f.closes| then f.closes[i] else None))
  }

  predicate Cacheable(lib: Library, value: Operand) {
    value.Text? && lib.upper(value.text) != "PRICE" && '_' in lib.upper(value.text)
  }

  /** `resolve_value` without its cache. */
  function ResolveFresh(lib: Library, f: Frame, value: Operand): Rhs {
    match value
    case Number(x) => Scalar(x)
    case Text(t) =>
      if lib.upper(t) == "PRICE" then Line(Closes(f))
      else if '_' in lib.upper(t) then Derived(lib, f, lib.upper(t))
      else NotANumber
  }

  /** `resolve_value` with its cache. */
  function Resolve(lib: Library, f: Frame, value: Operand, cache: map<string, Series>): (Rhs, map<string, Series>) {
    if !Cacheable(lib, value) then (ResolveFresh(lib, f, value), cache)
    else
      var v := lib.upper(value.text);
      if v in cache then (Line(cache[v]), cache)
      else
        var r := Derived(lib, f, v);
        (r, if r.Line? then cache[v := r.series] else cache)
  }

  // ------------------------------------------------------------------ one condition

  function Constant(a: Series, x: Option<real>): Series {
    seq(|a|, i requires 0 <= i < |a| => Point(a[i].at, x))
  }

  /** The last entry that is not NaN. */
  function Last(a: Series): Option<real>
    decreases |a|
  {
    if a == [] then None
    else if a[|a| - 1].value.Some? then a[|a| - 1].value
    else Last(a[..|a| - 1])
  }

  function Compare(op: Operator, x: real, y: real): bool {
    match op
    case Gt => x > y
    case Lt => x < y
    case Ge => x >= y
    case Le => x <= y
    case Eq => -0.000000001 < x - y < 0.000000001
    case _ => false
  }

  function AsSeries(a: Series, rhs: Rhs): Series {
    match rhs
    case Line(b) => b
    case Scalar(x) => Constant(a, Some(x))
    case _ => Constant(a, None)
  }

  function AsNumber(rhs: Rhs): Option<real> {
    match rhs
    case Line(b) => Last(b)
    case Scalar(x) => Some(x)
    case _ => None
  }

  /** The comparison itself; every exception in it reads as false. */
  function Judge(op: Operator, a: Series, rhs: Rhs): bool {
    if rhs.Failed? then false
    else match op
      case CrossesAbove => DetectCross(a, AsSeries(a, rhs)) == Some(CrossAbove)
      case CrossesBelow => DetectCross(a, AsSeries(a, rhs)) == Some(CrossBelow)
      case _ =>
        var x, y := Last(a), AsNumber(rhs);
        x.Some? && y.Some? && Compare(op, x.value, y.value)
  }

  /** What the condition means: everything is computed from the frame. */
  function Holds(lib: Library, f: Frame, c: Condition): bool {
    match Compute(lib, f, c)
    case None => false
    case Some(a) => Judge(c.op, a, ResolveFresh(lib, f, c.value))
  }

  /** `last` is the last index label only: nothing of the bars themselves is in the key. */
  datatype Key = Key(scope: Symbol, length: nat, last: Option<int>, indicator: Indicator, params: Params)

  function LastLabel(f: Frame): Option<int> {
    if f.labels == [] then None else Some(f.labels[|f.labels| - 1])
  }

  function KeyOf(scope: Symbol, f: Frame, c: Condition): Key {
    Key(scope, |f.labels|, LastLabel(f), c.indicator, c.params)
  }

  function LocalKey(lib: Library, c: Condition): string { Name(c.indicator) + "_" + lib.show(c.params) }

  datatype Memo = Memo(global: map<Key, Series>, local: map<string, Series>)

  function Primary(lib: Library, scope: Symbol, f: Frame, c: Condition, global: map<Key, Series>): Option<Series> {
    var key := KeyOf(scope, f, c);
    if key in global then Some(global[key]) else Compute(lib, f, c)
  }

  /** `_evaluate_condition` with both caches. */
  function Evaluated(lib: Library, scope: Symbol, f: Frame, c: Condition, m: Memo): (bool, Memo) {
    match Primary(lib, scope, f, c, m.global)
    case None => (false, m)
    case Some(a) =>
      var (rhs, local) := Resolve(lib, f, c.value, m.local[LocalKey(lib, c) := a]);
      (Judge(c.op, a, rhs), Memo(m.global[KeyOf(scope, f, c) := a], local))
  }

  // ------------------------------------------------------------------ lists of conditions

  datatype Logic = All | Any

  function Combine(logic: Logic, results: seq<bool>): bool {
    if logic == All then false !in results else true in results
  }

  /** The list comprehension: every condition is evaluated, in order. */
  function Results(lib: Library, scope: Symbol, f: Frame, cs: seq<Condition>, m: Memo): (seq<bool>, Memo)
    decreases |cs|
  {
    if cs == [] then ([], m)
    else
      var (rs, m1) := Results(lib, scope, f, cs[..|cs| - 1], m);
      var (r, m2) := Evaluated(lib, scope, f, cs[|cs| - 1], m1);
      (rs + [r], m2)
  }

  function Fired(lib: Library, scope: Symbol, f: Frame, cs: seq<Condition>, logic: Logic, global: map<Key, Series>)
    : (bool, map<Key, Series>)
  {
    if |f.labels| < 2 then (false, global)
    else
      var (rs, m) := Results(lib, scope, f, cs, Memo(global, map[]));
      (Combine(logic, rs), m.global)
  }

  function HoldsEach(lib: Library, f: Frame, cs: seq<Condition>): (r: seq<bool>)
    ensures |r| == |cs| && forall i :: 0 <= i < |cs| ==> r[i] == Holds(lib, f, cs[i])
    decreases |cs|
  {
    if cs == [] then [] else HoldsEach(lib, f, cs[..|cs| - 1]) + [Holds(lib, f, cs[|cs| - 1])]
  }

  /** What a list of conditions means, with no cache anywhere: of two bars at least, all of
      them hold or some of them does. */
  ghost predicate Meant(lib: Library, f: Frame, cs: seq<Condition>, logic: Logic) {
    && |f.labels| >= 2
    && (logic == All ==> forall c :: c in cs ==> Holds(lib, f, c))
    && (logic == Any ==> exists c :: c in cs && Holds(lib, f, c))
  }

  // ------------------------------------------------------------------ rules

  /** `cooling` and `coolingSymbols` say which cooldowns are still running now. */
  datatype Rule = Rule(
    enabled: bool, symbol: Option<Symbol>, universe: Option<string>, conditions: seq<Condition>,
    logic: Logic, cooling: bool, coolingSymbols: set<Symbol>)

  type Market = map<Symbol, Frame>
  type Universes = map<string, seq<Symbol>>

  predicate HasBars(bars: Market, s: Symbol) { s in bars && bars[s].labels != [] }

  function Members(u: Universes, name: string): seq<Symbol> { if name in u then u[name] else [] }

  /** Which (rule, symbol) pairs `evaluate_all` puts to the conditions, in order. */
  function Candidates(r: Rule, bars: Market, u: Universes): seq<Symbol> {
    if !r.enabled then []
    else if r.universe.Some? then Eligible(r, bars, Members(u, r.universe.value))
    else if r.symbol.Some? && HasBars(bars, r.symbol.value) && !r.cooling then [r.symbol.value]
    else []
  }

  function Eligible(r: Rule, bars: Market, symbols: seq<Symbol>): (e: seq<Symbol>)
    ensures forall s :: s in e ==> HasBars(bars, s)
    decreases |symbols|
  {
    if symbols == [] then []
    else
      var s := symbols[|symbols| - 1];
      var before := Eligible(r, bars, symbols[..|symbols| - 1]);
      if HasBars(bars, s) && s !in r.coolingSymbols then before + [s] else before
  }

  /** The symbols of one rule that fire, with the global cache threaded through. */
  function FiredOn(lib: Library, r: Rule, bars: Market, symbols: seq<Symbol>, global: map<Key, Series>)
    : (seq<Symbol>, map<Key, Series>)
    requires forall s :: s in symbols ==> s in bars
    decreases |symbols|
  {
    if symbols == [] then ([], global)
    else
      var (hits, g) := FiredOn(lib, r, bars, symbols[..|symbols| - 1], global);
      var s := symbols[|symbols| - 1];
      var (fired, g1) := Fired(lib, s, bars[s], r.conditions, r.logic, g);
      (if fired then hits + [s] else hits, g1)
  }

  /** `evaluate_all`: the triggered (rule index, symbol) pairs. */
  function Triggered(lib: Library, rules: seq<Rule>, bars: Market, u: Universes, global: map<Key, Series>)
    : (seq<(nat, Symbol)>, map<Key, Series>)
    decreases |rules|
  {
    if rules == [] then ([], global)
    else
      var n := |rules| - 1;
      var (hits, g) := Triggered(lib, rules[..n], bars, u, global);
      var (mine, g1) := FiredOn(lib, rules[n], bars, Candidates(rules[n], bars, u), g);
      (hits + Tagged(n, mine), g1)
  }

  function Tagged(n: nat, symbols: seq<Symbol>): (r: seq<(nat, Symbol)>)
    ensures |r| == |symbols|
    ensures forall i :: 0 <= i < |symbols| ==> r[i] == (n, symbols[i])
  {
    seq(|symbols|, i requires 0 <= i < |symbols| => (n, symbols[i]))
  }

  lemma {:induction false} OneMoreSymbol(
      lib: Library, r: Rule, bars: Market, symbols: seq<Symbol>, s: Symbol, global: map<Key, Series>)
    requires (forall x :: x in symbols ==> x in bars) && s in bars
    ensures var (hits, g) := FiredOn(lib, r, bars, symbols, global);
            var (fired, g1) := Fired(lib, s, bars[s], r.conditions, r.logic, g);
            FiredOn(lib, r, bars, symbols + [s], global) == (if fired then hits + [s] else hits, g1)
  {
    assert (symbols + [s])[..|symbols|] == symbols;
  }

  /** The module-level state of the rule engine and the functions that use it. */
  class RuleEngine {
    const lib: Library
    var indicatorCache: map<Key, Series>

    constructor (lib: Library)
      ensures this.lib == lib && indicatorCache == map[]
    {
      this.lib := lib;
      indicatorCache := map[];
    }

    method EvaluateCondition(c: Condition, f: Frame, cache: map<string, Series>, scope: Symbol)
      returns (r: bool, cache': map<string, Series>)
      modifies this`indicatorCache
      ensures (r, Memo(indicatorCache, cache')) == Evaluated(lib, scope, f, c, Memo(old(indicatorCache), cache))
    {
      var key := KeyOf(scope, f, c);
      var series: Series;
      if key in indicatorCache {
        series := indicatorCache[key];
        assert indicatorCache == indicatorCache[key := series];
      } else {
        var computed := lib.calculate(f, Name(c.indicator), c.params);
        if computed.None? { return false, cache; }
        series := computed.value;
        indicatorCache := indicatorCache[key := series];
      }
      var resolved := Resolve(lib, f, c.value, cache[LocalKey(lib, c) := series]);
      return Judge(c.op, series, resolved.0), resolved.1;
    }

    method EvaluateConditions(conditions: seq<Condition>, f: Frame, logic: Logic, symbol: Symbol) returns (r: bool)
      modifies this`indicatorCache
      ensures (r, indicatorCache) == Fired(lib, symbol, f, conditions, logic, old(indicatorCache))
    {
      if |f.labels| < 2 { return false; }
      var cache: map<string, Series> := map[];
      var results: seq<bool> := [];
      ghost var start := Memo(indicatorCache, map[]);
      for i := 0 to |conditions|
        invariant (results, Memo(indicatorCache, cache)) == Results(lib, symbol, f, conditions[..i], start)
      {
        assert conditions[..i + 1][..i] == conditions[..i];
        var one;
        one, cache := EvaluateCondition(conditions[i], f, cache, symbol);
        results := results + [one];
      }
      assert conditions[..|conditions|] == conditions;
      return Combine(logic, results);
    }

    method EvaluateAll(rules: seq<Rule>, bars: Market, universes: Universes) returns (triggered: seq<(nat, Symbol)>)
      modifies this`indicatorCache
      ensures (triggered, indicatorCache) == Triggered(lib, rules, bars, universes, old(indicatorCache))
    {
      triggered := [];
      for n := 0 to |rules|
        invariant (triggered, indicatorCache) == Triggered(lib, rules[..n], bars, universes, old(indicatorCache))
      {
        assert rules[..n + 1][..n] == rules[..n];
        var r := rules[n];
        var mine := EvaluateRule(r, bars, universes);
        triggered := triggered + Tagged(n, mine);
      }
      assert rules[..|rules|] == rules;
    }

    /** One rule of `evaluate_all`: its symbols that fire. */
    method EvaluateRule(r: Rule, bars: Market, universes: Universes) returns (hits: seq<Symbol>)
      modifies this`indicatorCache
      ensures (hits, indicatorCache) == FiredOn(lib, r, bars, Candidates(r, bars, universes), old(indicatorCache))
    {
      hits := [];
      if !r.enabled { return; }
      if r.universe.Some? {
        assert FiredOn(lib, r, bars, [], indicatorCache) == ([], indicatorCache);
        var symbols := Members(universes, r.universe.value);
        for i := 0 to |symbols|
          invariant (hits, indicatorCache)
                 == FiredOn(lib, r, bars, Eligible(r, bars, symbols[..i]), old(indicatorCache))
        {
          var s := symbols[i];
          assert symbols[..i + 1][..i] == symbols[..i];
          ghost var before := Eligible(r, bars, symbols[..i]);
          if !HasBars(bars, s) || s in r.coolingSymbols { continue; }
          OneMoreSymbol(lib, r, bars, before, s, old(indicatorCache));
          var fired := EvaluateConditions(r.conditions, bars[s], r.logic, s);
          if fired { hits := hits + [s]; }
        }
        assert symbols[..|symbols|] == symbols;
      } else if r.symbol.Some? && HasBars(bars, r.symbol.value) && !r.cooling {
        var s := r.symbol.value;
        OneMoreSymbol(lib, r, bars, [], s, old(indicatorCache));
        assert [] + [s] == [s];
        var fired := EvaluateConditions(r.conditions, bars[s], r.logic, s);
        if fired { hits := [s]; }
      }
    }
  }
}
