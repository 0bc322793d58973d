/** When cached evaluation agrees with recomputation, and when it does not. */
module IndicatorCacheTheorems {
  import opened Options
  import opened Symbols
  import opened Crossings
  import opened IndicatorCache

  // ------------------------------------------------------------------ the global cache alone

  datatype Use = Use(scope: Symbol, frame: Frame, condition: Condition)

  function UseKey(u: Use): Key { KeyOf(u.scope, u.frame, u.condition) }

  function Fresh(lib: Library, u: Use): Option<Series> { Compute(lib, u.frame, u.condition) }

  /** The global cache after some uses, from empty. */
  function Stored(lib: Library, uses: seq<Use>): map<Key, Series>
    decreases |uses|
  {
    if uses == [] then map[]
    else
      var g, u := Stored(lib, uses[..|uses| - 1]), uses[|uses| - 1];
      match Primary(lib, u.scope, u.frame, u.condition, g)
      case None => g
      case Some(a) => g[UseKey(u) := a]
  }

  /** The series that use `j` works with. */
  function Served(lib: Library, uses: seq<Use>, j: nat): Option<Series>
    requires j < |uses|
  {
    Primary(lib, uses[j].scope, uses[j].frame, uses[j].condition, Stored(lib, uses[..j]))
  }

  lemma {:induction false} StoredStep(lib: Library, uses: seq<Use>, j: nat)
    requires j < |uses|
    ensures Stored(lib, uses[..j + 1])
         == match Served(lib, uses, j)
            case None => Stored(lib, uses[..j])
            case Some(a) => Stored(lib, uses[..j])[UseKey(uses[j]) := a]
  {
    assert uses[..j + 1][..j] == uses[..j];
  }

  /** An entry once stored is never replaced by another series. */
  lemma {:induction false} StoredStays(lib: Library, uses: seq<Use>, i: nat, j: nat, key: Key)
    requires i <= j <= |uses| && key in Stored(lib, uses[..i])
    ensures key in Stored(lib, uses[..j]) && Stored(lib, uses[..j])[key] == Stored(lib, uses[..i])[key]
    decreases j
  {
    if i < j {
      StoredStays(lib, uses, i, j - 1, key);
      StoredStep(lib, uses, j - 1);
    }
  }

  /** Every entry was computed by some earlier use with that key. */
  lemma {:induction false} StoredFrom(lib: Library, uses: seq<Use>, j: nat, key: Key) returns (i: nat)
    requires j <= |uses| && key in Stored(lib, uses[..j])
    ensures i < j && UseKey(uses[i]) == key && Fresh(lib, uses[i]) == Some(Stored(lib, uses[..j])[key])
    decreases j
  {
    StoredStep(lib, uses, j - 1);
    if key in Stored(lib, uses[..j - 1]) {
      i := StoredFrom(lib, uses, j - 1, key);
    } else {
      i := j - 1;
    }
  }

  ghost predicate AllFresh(lib: Library, uses: seq<Use>) {
    forall j :: 0 <= j < |uses| ==> Served(lib, uses, j) == Fresh(lib, uses[j])
  }

  ghost predicate KeysDetermineSeries(lib: Library, uses: seq<Use>) {
    forall i, j :: 0 <= i < j < |uses| && UseKey(uses[i]) == UseKey(uses[j]) && Fresh(lib, uses[i]).Some?
      ==> Fresh(lib, uses[j]) == Fresh(lib, uses[i])
  }

  /** Over any run of evaluations: every indicator served is the one recomputation would
      give exactly when uses that share a key compute the same series. */
  lemma {:induction false} ServedFreshIff(lib: Library, uses: seq<Use>)
    ensures AllFresh(lib, uses) <==> KeysDetermineSeries(lib, uses)
  {
    if AllFresh(lib, uses) {
      forall i, j | 0 <= i < j < |uses| && UseKey(uses[i]) == UseKey(uses[j]) && Fresh(lib, uses[i]).Some?
        ensures Fresh(lib, uses[j]) == Fresh(lib, uses[i])
      {
        assert Served(lib, uses, i) == Fresh(lib, uses[i]);
        StoredStep(lib, uses, i);
        StoredStays(lib, uses, i + 1, j, UseKey(uses[i]));
        assert Served(lib, uses, j) == Fresh(lib, uses[j]);
      }
    }
    if KeysDetermineSeries(lib, uses) {
      forall j | 0 <= j < |uses| ensures Served(lib, uses, j) == Fresh(lib, uses[j]) {
        if UseKey(uses[j]) in Stored(lib, uses[..j]) {
          var i := StoredFrom(lib, uses, j, UseKey(uses[j]));
        }
      }
    }
  }

  // ------------------------------------------------------------------ the per-call cache alone

  /** How Python prints dictionaries and reads integers, as far as it matters here. */
  ghost predicate PythonText(lib: Library) {
    && (forall p: Params :: lib.show(p) != "" && lib.show(p)[0] == '{')
    && (forall s: string :: '{' in s ==> lib.parse(s).None?)
  }

  /** One condition whose own series is already at hand. */
  datatype Turn = Turn(condition: Condition, series: Series)

  function Local(lib: Library, f: Frame, turns: seq<Turn>): map<string, Series>
    decreases |turns|
  {
    if turns == [] then map[]
    else
      var t := turns[|turns| - 1];
      Resolve(lib, f, t.condition.value, Local(lib, f, turns[..|turns| - 1])[LocalKey(lib, t.condition) := t.series]).1
  }

  function Resolved(lib: Library, f: Frame, turns: seq<Turn>, j: nat): Rhs
    requires j < |turns|
  {
    var t := turns[j];
    Resolve(lib, f, t.condition.value, Local(lib, f, turns[..j])[LocalKey(lib, t.condition) := t.series]).0
  }

  /** The text of `c`'s value is the key under which `d`'s own series is kept. */
  predicate Clash(lib: Library, c: Condition, d: Condition) {
    Cacheable(lib, c.value) && lib.upper(c.value.text) == LocalKey(lib, d)
  }

  ghost predicate Sound(lib: Library, f: Frame, keys: iset<string>, local: map<string, Series>) {
    forall v :: v in local ==> v in keys || Derived(lib, f, v) == Line(local[v])
  }

  ghost function KeysOf(lib: Library, turns: seq<Turn>): iset<string> {
    iset t | t in turns :: LocalKey(lib, t.condition)
  }

  lemma {:induction false} ResolveKeepsSound(
      lib: Library, f: Frame, keys: iset<string>, local: map<string, Series>, value: Operand)
    requires Sound(lib, f, keys, local)
    ensures var after := Resolve(lib, f, value, local).1;
            Sound(lib, f, keys, after) && forall v :: v in local ==> v in after && after[v] == local[v]
  {
  }

  lemma {:induction false} LocalStep(lib: Library, f: Frame, init: seq<Turn>, t: Turn)
    requires Sound(lib, f, KeysOf(lib, init), Local(lib, f, init))
    ensures KeysOf(lib, init) <= KeysOf(lib, init + [t]) && LocalKey(lib, t.condition) in KeysOf(lib, init + [t])
    ensures Sound(lib, f, KeysOf(lib, init + [t]), Local(lib, f, init + [t]))
    ensures LocalKey(lib, t.condition) in Local(lib, f, init + [t])
    ensures forall v :: v in Local(lib, f, init) ==> v in Local(lib, f, init + [t])
  {
    assert (init + [t])[..|init|] == init && (init + [t])[|init|] == t;
    var local := Local(lib, f, init)[LocalKey(lib, t.condition) := t.series];
    assert Sound(lib, f, KeysOf(lib, init + [t]), local);
    ResolveKeepsSound(lib, f, KeysOf(lib, init + [t]), local, t.condition.value);
  }

  lemma {:induction false} LocalIsSound(lib: Library, f: Frame, turns: seq<Turn>)
    ensures Sound(lib, f, KeysOf(lib, turns), Local(lib, f, turns))
    ensures forall t :: t in turns ==> LocalKey(lib, t.condition) in Local(lib, f, turns)
    decreases |turns|
  {
    if turns == [] {
    } else {
      var init, t := turns[..|turns| - 1], turns[|turns| - 1];
      assert turns == init + [t];
      LocalIsSound(lib, f, init);
      LocalStep(lib, f, init, t);
    }
  }

  /** The key of a condition's own series never names a derived line. */
  lemma {:induction false} KeyIsNoSelector(lib: Library, f: Frame, c: Condition)
    requires PythonText(lib)
    ensures '_' in LocalKey(lib, c) && Derived(lib, f, LocalKey(lib, c)) == NotANumber
  {
    var name, text := Name(c.indicator), lib.show(c.params);
    var v := LocalKey(lib, c);
    BraceBehind(name, text);
    NoBand(c.indicator, text);
    assert '{' !in "MACD_SIGNAL" && '{' !in "MACD_HIST";
  }

  lemma {:induction false} BraceBehind(name: string, text: string)
    requires text != "" && text[0] == '{'
    ensures var v := name + "_" + text;
            '_' in v && '{' in v && '{' in After(v, Find(v, '_'))
  {
    var v := name + "_" + text;
    assert v[|name|] == '_' && v[|name| + 1] == '{';
    var i := Find(v, '_');
    assert After(v, i)[|name| - i] == '{';
  }

  lemma {:induction false} NoBand(k: Indicator, text: string)
    requires text != "" && text[0] == '{'
    ensures BandSelector(Name(k) + "_" + text).None?
  {
    var v := Name(k) + "_" + text;
    if Before(v, 7) == "BBANDS_" {
      assert v[6] == '_' && v[0] == 'B';
      assert k == BBANDS by { assert "BBANDS_"[0] == 'B'; assert Name(k)[0] == v[0]; }
      assert After(v, 6) == text;
      assert '{' !in "UPPER" && '{' !in "MID" && '{' !in "LOWER";
      var j := Find(text, '_');
      assert j > 0 && Before(text, j)[0] == '{';
    }
  }

  ghost predicate AllResolvedFresh(lib: Library, f: Frame, turns: seq<Turn>) {
    forall j :: 0 <= j < |turns| ==>
      Resolved(lib, f, turns, j) == ResolveFresh(lib, f, turns[j].condition.value)
  }

  ghost predicate ClashFree(lib: Library, turns: seq<Turn>) {
    forall i, j :: 0 <= i <= j < |turns| ==> !Clash(lib, turns[j].condition, turns[i].condition)
  }

  /** Within one call, every right-hand side is the freshly computed one exactly when no
      condition's value spells the key of its own or an earlier condition's series. */
  lemma {:induction false} ResolvedFreshIff(lib: Library, f: Frame, turns: seq<Turn>)
    requires PythonText(lib)
    ensures AllResolvedFresh(lib, f, turns) <==> ClashFree(lib, turns)
  {
    if AllResolvedFresh(lib, f, turns) {
      forall i, j | 0 <= i <= j < |turns| ensures !Clash(lib, turns[j].condition, turns[i].condition) {
        if Clash(lib, turns[j].condition, turns[i].condition) {
          ClashIsStale(lib, f, turns, i, j);
        }
      }
    }
    if ClashFree(lib, turns) {
      forall j | 0 <= j < |turns|
        ensures Resolved(lib, f, turns, j) == ResolveFresh(lib, f, turns[j].condition.value)
      {
        LocalIsSound(lib, f, turns[..j]);
        NoClashIsFresh(lib, f, turns, j);
      }
    }
  }

  /** A price condition whose value is the text `PRICE_{}`. */
  function SpellsItsKey(op: Operator): Condition { Condition(PRICE, Params(map[]), op, Text("PRICE_{}")) }

  /** A concrete clash, with the empty dictionary printed as Python prints it: that value is no
      number, but the condition finds its own series under it and compares it with itself. */
  lemma {:induction false} KeySpelledOut(lib: Library, f: Frame, op: Operator, series: Series)
    requires PythonText(lib) && lib.show(Params(map[])) == "{}" && lib.upper("PRICE_{}") == "PRICE_{}"
    ensures var turns := [Turn(SpellsItsKey(op), series)];
            && Resolved(lib, f, turns, 0) == Line(series)
            && ResolveFresh(lib, f, SpellsItsKey(op).value) == NotANumber
            && !AllResolvedFresh(lib, f, turns)
  {
    var turns, v := [Turn(SpellsItsKey(op), series)], Name(PRICE) + "_" + "{}";
    assert v == "PRICE_{}" && v[5] == '_' && |v| != |"PRICE"|;
    assert LocalKey(lib, turns[0].condition) == v;
    KeyIsNoSelector(lib, f, turns[0].condition);
  }

  /** A key at hand is served as the line kept under it. */
  lemma {:induction false} HitIsServed(
      lib: Library, f: Frame, value: Operand, cache: map<string, Series>, v: string)
    requires Cacheable(lib, value) && lib.upper(value.text) == v && v in cache
    ensures Resolve(lib, f, value, cache).0.Line? && ResolveFresh(lib, f, value) == Derived(lib, f, v)
  {
  }

  /** When condition j is resolved the keys of all conditions up to it are at hand. */
  lemma {:induction false} KeyAtHand(lib: Library, f: Frame, turns: seq<Turn>, i: nat, j: nat)
    requires i <= j < |turns|
    ensures LocalKey(lib, turns[i].condition)
         in Local(lib, f, turns[..j])[LocalKey(lib, turns[j].condition) := turns[j].series]
  {
    if i < j {
      assert turns[..j][i] == turns[i];
      assert turns[i] in turns[..j];
      LocalIsSound(lib, f, turns[..j]);
    }
  }

  lemma {:induction false} ClashIsStale(lib: Library, f: Frame, turns: seq<Turn>, i: nat, j: nat)
    requires PythonText(lib) && i <= j < |turns| && Clash(lib, turns[j].condition, turns[i].condition)
    ensures Resolved(lib, f, turns, j) != ResolveFresh(lib, f, turns[j].condition.value)
  {
    var cache := Local(lib, f, turns[..j])[LocalKey(lib, turns[j].condition) := turns[j].series];
    KeyAtHand(lib, f, turns, i, j);
    HitIsServed(lib, f, turns[j].condition.value, cache, LocalKey(lib, turns[i].condition));
    KeyIsNoSelector(lib, f, turns[i].condition);
  }

  lemma {:induction false} HitIsClash(lib: Library, turns: seq<Turn>, j: nat, v: string) returns (i: nat)
    requires j <= |turns| && v in KeysOf(lib, turns[..j])
    ensures i < j && LocalKey(lib, turns[i].condition) == v
  {
    var t :| t in turns[..j] && LocalKey(lib, t.condition) == v;
    i :| 0 <= i < j && turns[..j][i] == t;
  }

  lemma {:induction false} NoClashIsFresh(lib: Library, f: Frame, turns: seq<Turn>, j: nat)
    requires j < |turns| && ClashFree(lib, turns)
    requires Sound(lib, f, KeysOf(lib, turns[..j]), Local(lib, f, turns[..j]))
    ensures Resolved(lib, f, turns, j) == ResolveFresh(lib, f, turns[j].condition.value)
  {
    var c := turns[j].condition;
    assert !Clash(lib, c, c);
    if Cacheable(lib, c.value) && lib.upper(c.value.text) in KeysOf(lib, turns[..j]) {
      var i := HitIsClash(lib, turns, j, lib.upper(c.value.text));
    }
  }

  // ------------------------------------------------------------------ decisions

  predicate SameShape(scope: Symbol, f: Frame, k: Key) {
    k.scope == scope && k.length == |f.labels| && k.last == LastLabel(f)
  }

  /** Every cached entry a call on this frame can hit is what the frame computes. */
  ghost predicate Agrees(lib: Library, global: map<Key, Series>, scope: Symbol, f: Frame) {
    forall k :: k in global && SameShape(scope, f, k) ==>
      lib.calculate(f, Name(k.indicator), k.params) == Some(global[k])
  }

  /** A call on `f` only adds entries that `f` computes. */
  ghost predicate Grown(lib: Library, before: map<Key, Series>, after: map<Key, Series>, scope: Symbol, f: Frame) {
    forall k :: k in after ==>
      || (k in before && before[k] == after[k])
      || (SameShape(scope, f, k) && lib.calculate(f, Name(k.indicator), k.params) == Some(after[k]))
  }

  /** No condition's value spells the key of a condition's own series. */
  ghost predicate NoClash(lib: Library, cs: seq<Condition>) {
    forall c, d :: c in cs && d in cs ==> !Clash(lib, c, d)
  }

  ghost function ConditionKeys(lib: Library, cs: seq<Condition>): iset<string> { iset c | c in cs :: LocalKey(lib, c) }

  lemma {:induction false} KeyOwner(lib: Library, cs: seq<Condition>, v: string) returns (d: Condition)
    requires v in ConditionKeys(lib, cs)
    ensures d in cs && LocalKey(lib, d) == v
  {
    d :| d in cs && LocalKey(lib, d) == v;
  }

  lemma {:induction false} NotClashing(lib: Library, cs: seq<Condition>, c: Condition, d: Condition)
    requires NoClash(lib, cs) && c in cs && d in cs
    ensures !Clash(lib, c, d)
  {
  }

  lemma {:induction false} ResolvesFresh(
      lib: Library, f: Frame, cs: seq<Condition>, c: Condition, local: map<string, Series>)
    requires NoClash(lib, cs) && c in cs && Sound(lib, f, ConditionKeys(lib, cs), local)
    ensures Resolve(lib, f, c.value, local).0 == ResolveFresh(lib, f, c.value)
  {
    if Cacheable(lib, c.value) && lib.upper(c.value.text) in ConditionKeys(lib, cs) {
      var d := KeyOwner(lib, cs, lib.upper(c.value.text));
      NotClashing(lib, cs, c, d);
    }
  }

  lemma {:induction false} EvaluatedFresh(
      lib: Library, scope: Symbol, f: Frame, cs: seq<Condition>, c: Condition, m: Memo)
    requires Agrees(lib, m.global, scope, f) && NoClash(lib, cs) && c in cs
    requires Sound(lib, f, ConditionKeys(lib, cs), m.local)
    ensures var (r, m1) := Evaluated(lib, scope, f, c, m);
            && r == Holds(lib, f, c) && Grown(lib, m.global, m1.global, scope, f)
            && Sound(lib, f, ConditionKeys(lib, cs), m1.local)
  {
    assert SameShape(scope, f, KeyOf(scope, f, c));
    if Primary(lib, scope, f, c, m.global).Some? {
      var a := Primary(lib, scope, f, c, m.global).value;
      assert Compute(lib, f, c) == Some(a);
      var local := m.local[LocalKey(lib, c) := a];
      assert Sound(lib, f, ConditionKeys(lib, cs), local);
      ResolvesFresh(lib, f, cs, c, local);
      ResolveKeepsSound(lib, f, ConditionKeys(lib, cs), local, c.value);
    }
  }

  lemma {:induction false} GrownAgrees(
      lib: Library, before: map<Key, Series>, after: map<Key, Series>, scope: Symbol, f: Frame, scope': Symbol, f': Frame)
    requires Grown(lib, before, after, scope, f) && Agrees(lib, before, scope', f')
    requires scope == scope' && |f.labels| == |f'.labels| && LastLabel(f) == LastLabel(f') ==> f == f'
    ensures Agrees(lib, after, scope', f')
  {
    forall k | k in after && SameShape(scope', f', k)
      ensures lib.calculate(f', Name(k.indicator), k.params) == Some(after[k])
    {
      if k in before && before[k] == after[k] {
      } else {
        assert SameShape(scope, f, k);
      }
    }
  }

  lemma {:induction false} ResultsFresh(
      lib: Library, scope: Symbol, f: Frame, all: seq<Condition>, n: nat, global: map<Key, Series>)
    requires n <= |all|
    requires Agrees(lib, global, scope, f) && NoClash(lib, all)
    ensures var (rs, m) := Results(lib, scope, f, all[..n], Memo(global, map[]));
            && rs == HoldsEach(lib, f, all[..n]) && Grown(lib, global, m.global, scope, f)
            && Sound(lib, f, ConditionKeys(lib, all), m.local)
    decreases n
  {
    if n == 0 {
    } else {
      ResultsFresh(lib, scope, f, all, n - 1, global);
      assert all[..n][..n - 1] == all[..n - 1];
      var (rs, m) := Results(lib, scope, f, all[..n - 1], Memo(global, map[]));
      GrownAgrees(lib, global, m.global, scope, f, scope, f);
      EvaluatedFresh(lib, scope, f, all, all[n - 1], m);
    }
  }

  /** AND of the results says that all conditions hold, OR that some condition does. */
  lemma {:induction false} CombineMeans(lib: Library, f: Frame, cs: seq<Condition>, logic: Logic)
    requires |f.labels| >= 2
    ensures Combine(logic, HoldsEach(lib, f, cs)) <==> Meant(lib, f, cs, logic)
  {
    var rs := HoldsEach(lib, f, cs);
    if logic == All {
      if false in rs {
        var i :| 0 <= i < |rs| && rs[i] == false;
        assert cs[i] in cs;
      } else {
        forall c | c in cs ensures Holds(lib, f, c) {
          var i :| 0 <= i < |cs| && cs[i] == c;
          assert rs[i] in rs;
        }
      }
    } else {
      if true in rs {
        var i :| 0 <= i < |rs| && rs[i] == true;
        assert cs[i] in cs;
      } else {
        forall c | c in cs ensures !Holds(lib, f, c) {
          var i :| 0 <= i < |cs| && cs[i] == c;
          assert rs[i] in rs;
        }
      }
    }
  }

  lemma {:induction false} FiredFresh(
      lib: Library, scope: Symbol, f: Frame, cs: seq<Condition>, logic: Logic, global: map<Key, Series>)
    requires Agrees(lib, global, scope, f) && NoClash(lib, cs)
    ensures var (r, g) := Fired(lib, scope, f, cs, logic, global);
            r == Meant(lib, f, cs, logic) && Grown(lib, global, g, scope, f)
  {
    if |f.labels| >= 2 {
      ResultsFresh(lib, scope, f, cs, |cs|, global);
      assert cs[..|cs|] == cs;
      CombineMeans(lib, f, cs, logic);
    }
  }

  /** A list of conditions put to a cache in step with its bars: true under AND exactly when
      there are two bars and every condition holds of them, and under OR exactly when there are
      two bars and some condition does. */
  lemma {:induction false} ConditionsHold(
      lib: Library, scope: Symbol, f: Frame, cs: seq<Condition>, global: map<Key, Series>)
    requires Agrees(lib, global, scope, f) && NoClash(lib, cs)
    ensures Fired(lib, scope, f, cs, All, global).0 <==> |f.labels| >= 2 && forall c :: c in cs ==> Holds(lib, f, c)
    ensures Fired(lib, scope, f, cs, Any, global).0 <==> |f.labels| >= 2 && exists c :: c in cs && Holds(lib, f, c)
  {
    FiredFresh(lib, scope, f, cs, All, global);
    FiredFresh(lib, scope, f, cs, Any, global);
  }

  /** One call of `evaluate_conditions`. */
  datatype Call = Call(scope: Symbol, frame: Frame, conditions: seq<Condition>, logic: Logic)

  function RunCalls(lib: Library, calls: seq<Call>, global: map<Key, Series>): (seq<bool>, map<Key, Series>)
    decreases |calls|
  {
    if calls == [] then ([], global)
    else
      var (rs, g) := RunCalls(lib, calls[..|calls| - 1], global);
      var c := calls[|calls| - 1];
      var (r, g1) := FiredBy(lib, c, g);
      (rs + [r], g1)
  }

  predicate SameSpace(c: Call, d: Call) {
    c.scope == d.scope && |c.frame.labels| == |d.frame.labels| && LastLabel(c.frame) == LastLabel(d.frame)
  }

  /** Calls that share scope, length and last label carry the same bars. */
  ghost predicate ShapeDeterminesBars(calls: seq<Call>) {
    forall c, d :: c in calls && d in calls && SameSpace(c, d) ==> c.frame == d.frame
  }

  ghost predicate AllAgree(lib: Library, calls: seq<Call>, g: map<Key, Series>) {
    forall c :: c in calls ==> Agrees(lib, g, c.scope, c.frame)
  }

  /** What the call decides with no cache anywhere. */
  ghost predicate MeantBy(lib: Library, c: Call) { Meant(lib, c.frame, c.conditions, c.logic) }

  ghost function MeantEach(lib: Library, calls: seq<Call>): (r: seq<bool>)
    ensures |r| == |calls| && forall i :: 0 <= i < |calls| ==> r[i] == MeantBy(lib, calls[i])
    decreases |calls|
  {
    if calls == [] then [] else MeantEach(lib, calls[..|calls| - 1]) + [MeantBy(lib, calls[|calls| - 1])]
  }

  lemma {:induction false} MeantStep(lib: Library, calls: seq<Call>, n: nat)
    requires n < |calls|
    ensures MeantEach(lib, calls[..n + 1]) == MeantEach(lib, calls[..n]) + [MeantBy(lib, calls[n])]
  {
    assert calls[..n + 1][..n] == calls[..n];
  }

  function FiredBy(lib: Library, c: Call, g: map<Key, Series>): (bool, map<Key, Series>) {
    Fired(lib, c.scope, c.frame, c.conditions, c.logic, g)
  }

  lemma {:induction false} OneCallFresh(lib: Library, calls: seq<Call>, c: Call, g: map<Key, Series>)
    requires c in calls && ShapeDeterminesBars(calls) && NoClash(lib, c.conditions) && AllAgree(lib, calls, g)
    ensures FiredBy(lib, c, g).0 == MeantBy(lib, c) && AllAgree(lib, calls, FiredBy(lib, c, g).1)
  {
    FiredFresh(lib, c.scope, c.frame, c.conditions, c.logic, g);
    var g1 := FiredBy(lib, c, g).1;
    forall d | d in calls ensures Agrees(lib, g1, d.scope, d.frame) {
      GrownAgrees(lib, g, g1, c.scope, c.frame, d.scope, d.frame);
    }
  }

  lemma {:induction false} RunCallsStep(lib: Library, calls: seq<Call>, n: nat, global: map<Key, Series>)
    requires n < |calls|
    ensures var (rs, g) := RunCalls(lib, calls[..n], global);
            var (r, g1) := FiredBy(lib, calls[n], g);
            RunCalls(lib, calls[..n + 1], global) == (rs + [r], g1)
  {
    assert calls[..n + 1][..n] == calls[..n];
  }

  lemma {:induction false} RunCallsFresh(lib: Library, calls: seq<Call>, n: nat, global: map<Key, Series>)
    requires n <= |calls| && ShapeDeterminesBars(calls) && AllAgree(lib, calls, global)
    requires forall c :: c in calls ==> NoClash(lib, c.conditions)
    ensures var (rs, g) := RunCalls(lib, calls[..n], global);
            rs == MeantEach(lib, calls[..n]) && AllAgree(lib, calls, g)
    decreases n
  {
    if n == 0 {
    } else {
      var k := n - 1;
      RunCallsFresh(lib, calls, k, global);
      RunCallsStep(lib, calls, k, global);
      MeantStep(lib, calls, k);
      assert calls[k] in calls;
      OneCallFresh(lib, calls, calls[k], RunCalls(lib, calls[..k], global).1);
    }
  }

  /** Any sequence of calls from a cleared cache decides as if nothing were cached, as long
      as the shape of the frames tells their bars apart. */
  lemma {:induction false} CachedDecidesAsUncached(lib: Library, calls: seq<Call>)
    requires ShapeDeterminesBars(calls) && forall c :: c in calls ==> NoClash(lib, c.conditions)
    ensures var rs := RunCalls(lib, calls, map[]).0;
            |rs| == |calls| && forall i :: 0 <= i < |calls| ==> rs[i] == MeantBy(lib, calls[i])
  {
    RunCallsFresh(lib, calls, |calls|, map[]);
    assert calls[..|calls|] == calls;
  }

  // ------------------------------------------------------------------ a whole cycle

  ghost function MeantOn(lib: Library, r: Rule, bars: Market, symbols: seq<Symbol>): seq<Symbol>
    requires forall s :: s in symbols ==> s in bars
    decreases |symbols|
  {
    if symbols == [] then []
    else
      var before, s := MeantOn(lib, r, bars, symbols[..|symbols| - 1]), symbols[|symbols| - 1];
      if Meant(lib, bars[s], r.conditions, r.logic) then before + [s] else before
  }

  ghost function MeantTriggered(lib: Library, rules: seq<Rule>, bars: Market, u: Universes): seq<(nat, Symbol)>
    decreases |rules|
  {
    if rules == [] then []
    else
      var n := |rules| - 1;
      MeantTriggered(lib, rules[..n], bars, u) + Tagged(n, MeantOn(lib, rules[n], bars, Candidates(rules[n], bars, u)))
  }

  ghost predicate AgreesWith(lib: Library, global: map<Key, Series>, bars: Market) {
    forall s :: s in bars ==> Agrees(lib, global, s, bars[s])
  }

  lemma {:induction false} FiredOnFresh(
      lib: Library, r: Rule, bars: Market, symbols: seq<Symbol>, global: map<Key, Series>)
    requires forall s :: s in symbols ==> s in bars
    requires AgreesWith(lib, global, bars) && NoClash(lib, r.conditions)
    ensures var (hits, g) := FiredOn(lib, r, bars, symbols, global);
            hits == MeantOn(lib, r, bars, symbols) && AgreesWith(lib, g, bars)
    decreases |symbols|
  {
    if symbols == [] {
    } else {
      var init, s := symbols[..|symbols| - 1], symbols[|symbols| - 1];
      FiredOnFresh(lib, r, bars, init, global);
      var g := FiredOn(lib, r, bars, init, global).1;
      FiredFresh(lib, s, bars[s], r.conditions, r.logic, g);
      var g1 := Fired(lib, s, bars[s], r.conditions, r.logic, g).1;
      forall t | t in bars ensures Agrees(lib, g1, t, bars[t]) {
        GrownAgrees(lib, g, g1, s, bars[s], t, bars[t]);
      }
    }
  }

  /** One cycle that starts from a cache in step with its bars triggers exactly the rules
      that hold of those bars, and leaves the cache in step. The scope is the symbol, so
      within a cycle no hypothesis on the frames is needed. */
  lemma {:induction false} CycleDecidesAsUncached(
      lib: Library, rules: seq<Rule>, bars: Market, u: Universes, global: map<Key, Series>)
    requires AgreesWith(lib, global, bars) && forall r :: r in rules ==> NoClash(lib, r.conditions)
    ensures var (hits, g) := Triggered(lib, rules, bars, u, global);
            hits == MeantTriggered(lib, rules, bars, u) && AgreesWith(lib, g, bars)
    decreases |rules|
  {
    if rules == [] {
    } else {
      var n := |rules| - 1;
      assert rules[n] in rules;
      CycleDecidesAsUncached(lib, rules[..n], bars, u, global);
      FiredOnFresh(lib, rules[n], bars, Candidates(rules[n], bars, u), Triggered(lib, rules[..n], bars, u, global).1);
    }
  }

  /** The rule is enabled and asks about this symbol, which is not cooling down: a symbol of
      its universe if it has one, its own symbol otherwise. */
  predicate AsksAbout(r: Rule, u: Universes, s: Symbol) {
    && r.enabled
    && (if r.universe.Some? then r.universe.value in u && s in u[r.universe.value] && s !in r.coolingSymbols
        else r.symbol == Some(s) && !r.cooling)
  }

  lemma {:induction false} EligibleIff(r: Rule, bars: Market, symbols: seq<Symbol>, s: Symbol)
    ensures s in Eligible(r, bars, symbols)
       <==> s in symbols && s in bars && bars[s].labels != [] && s !in r.coolingSymbols
    decreases |symbols|
  {
    if symbols == [] {
    } else {
      assert symbols == symbols[..|symbols| - 1] + [symbols[|symbols| - 1]];
      EligibleIff(r, bars, symbols[..|symbols| - 1], s);
    }
  }

  lemma {:induction false} CandidatesIff(r: Rule, bars: Market, u: Universes, s: Symbol)
    ensures s in Candidates(r, bars, u) <==> AsksAbout(r, u, s) && s in bars && bars[s].labels != []
  {
    if r.universe.Some? { EligibleIff(r, bars, Members(u, r.universe.value), s); }
  }

  lemma {:induction false} MeantOnIff(lib: Library, r: Rule, bars: Market, symbols: seq<Symbol>, s: Symbol)
    requires forall x :: x in symbols ==> x in bars
    ensures s in MeantOn(lib, r, bars, symbols) <==> s in symbols && Meant(lib, bars[s], r.conditions, r.logic)
    decreases |symbols|
  {
    if symbols == [] {
    } else {
      var init := symbols[..|symbols| - 1];
      assert symbols == init + [symbols[|symbols| - 1]];
      MeantOnIff(lib, r, bars, init, s);
    }
  }

  lemma {:induction false} TaggedIff(n: nat, symbols: seq<Symbol>, k: nat, s: Symbol)
    ensures (k, s) in Tagged(n, symbols) <==> k == n && s in symbols
  {
    if s in symbols {
      var i :| 0 <= i < |symbols| && symbols[i] == s;
      assert Tagged(n, symbols)[i] == (n, s);
    }
  }

  lemma {:induction false} MeantTriggeredIff(
      lib: Library, rules: seq<Rule>, bars: Market, u: Universes, k: nat, s: Symbol)
    ensures (k, s) in MeantTriggered(lib, rules, bars, u)
       <==> k < |rules| && AsksAbout(rules[k], u, s) && s in bars
            && Meant(lib, bars[s], rules[k].conditions, rules[k].logic)
    decreases |rules|
  {
    if rules == [] {
    } else {
      var n := |rules| - 1;
      MeantTriggeredIff(lib, rules[..n], bars, u, k, s);
      var asked := Candidates(rules[n], bars, u);
      TaggedIff(n, MeantOn(lib, rules[n], bars, asked), k, s);
      MeantOnIff(lib, rules[n], bars, asked, s);
      CandidatesIff(rules[n], bars, u, s);
    }
  }

  /** A cycle from a cache in step triggers a rule on a symbol exactly when the rule asks about
      it and its conditions, all of them under AND and some of them under OR, hold of the two
      bars at least that the symbol has. */
  lemma {:induction false} TriggeredIff(
      lib: Library, rules: seq<Rule>, bars: Market, u: Universes, global: map<Key, Series>, k: nat, s: Symbol)
    requires AgreesWith(lib, global, bars) && forall r :: r in rules ==> NoClash(lib, r.conditions)
    ensures (k, s) in Triggered(lib, rules, bars, u, global).0
       <==> k < |rules| && AsksAbout(rules[k], u, s) && s in bars && |bars[s].labels| >= 2
            && (rules[k].logic == All ==> forall c :: c in rules[k].conditions ==> Holds(lib, bars[s], c))
            && (rules[k].logic == Any ==> exists c :: c in rules[k].conditions && Holds(lib, bars[s], c))
  {
    CycleDecidesAsUncached(lib, rules, bars, u, global);
    MeantTriggeredIff(lib, rules, bars, u, k, s);
  }

  // ------------------------------------------------------------------ the next cycle

  /** The index after `reset_index`: positions, not times. */
  predicate Positional(f: Frame) { forall i :: 0 <= i < |f.labels| ==> f.labels[i] == i }

  /** With a positional index the key sees only how many bars there are. */
  lemma {:induction false} PositionalKeySeesOnlyLength(scope: Symbol, f: Frame, f': Frame, c: Condition)
    requires Positional(f) && Positional(f')
    ensures KeyOf(scope, f, c) == KeyOf(scope, f', c) <==> |f.labels| == |f'.labels|
  {
    if f.labels != [] && |f.labels| == |f'.labels| {
      assert f.labels[|f.labels| - 1] == |f.labels| - 1 == f'.labels[|f.labels| - 1];
    }
  }

  predicate Threshold(c: Condition) { c.value.Number? }

  lemma {:induction false} EvaluatedKeeps(lib: Library, scope: Symbol, f: Frame, c: Condition, m: Memo, k: Key)
    requires k in m.global || (k == KeyOf(scope, f, c) && Compute(lib, f, c).Some?)
    ensures k in Evaluated(lib, scope, f, c, m).1.global
  {
  }

  lemma {:induction false} CallStores(
      lib: Library, scope: Symbol, f: Frame, cs: seq<Condition>, n: nat, i: nat, global: map<Key, Series>)
    requires i < n <= |cs| && Compute(lib, f, cs[i]).Some?
    ensures KeyOf(scope, f, cs[i]) in Results(lib, scope, f, cs[..n], Memo(global, map[])).1.global
    decreases n
  {
    if i < n - 1 {
      CallStores(lib, scope, f, cs, n - 1, i, global);
    }
    assert cs[..n][..n - 1] == cs[..n - 1];
    var m := Results(lib, scope, f, cs[..n - 1], Memo(global, map[])).1;
    EvaluatedKeeps(lib, scope, f, cs[n - 1], m, KeyOf(scope, f, cs[i]));
  }

  lemma {:induction false} ResultsStep(lib: Library, scope: Symbol, f: Frame, cs: seq<Condition>, n: nat, m: Memo)
    requires n < |cs|
    ensures var (rs, m1) := Results(lib, scope, f, cs[..n], m);
            var (r, m2) := Evaluated(lib, scope, f, cs[n], m1);
            Results(lib, scope, f, cs[..n + 1], m) == (rs + [r], m2)
  {
    assert cs[..n + 1][..n] == cs[..n];
  }

  lemma {:induction false} HoldsStep(lib: Library, f: Frame, cs: seq<Condition>, n: nat)
    requires n < |cs|
    ensures HoldsEach(lib, f, cs[..n + 1]) == HoldsEach(lib, f, cs[..n]) + [Holds(lib, f, cs[n])]
  {
    assert cs[..n + 1][..n] == cs[..n];
  }

  /** A cached threshold condition reads the cached series and stores nothing new. */
  lemma {:induction false} StaleOne(lib: Library, scope: Symbol, f: Frame, f': Frame, c: Condition, m: Memo)
    requires Threshold(c) && KeyOf(scope, f', c) in m.global
    requires Compute(lib, f, c) == Some(m.global[KeyOf(scope, f', c)])
    ensures var (r, m1) := Evaluated(lib, scope, f', c, m);
            r == Holds(lib, f, c) && m1.global == m.global
  {
    assert m.global[KeyOf(scope, f', c) := m.global[KeyOf(scope, f', c)]] == m.global;
  }

  lemma {:induction false} StaleResults(
      lib: Library, scope: Symbol, f: Frame, f': Frame, cs: seq<Condition>, n: nat, global: map<Key, Series>)
    requires n <= |cs|
    requires forall c :: c in cs ==>
      Threshold(c) && KeyOf(scope, f', c) in global && Compute(lib, f, c) == Some(global[KeyOf(scope, f', c)])
    ensures var (rs, m) := Results(lib, scope, f', cs[..n], Memo(global, map[]));
            rs == HoldsEach(lib, f, cs[..n]) && m.global == global
    decreases n
  {
    if n == 0 {
    } else {
      var k := n - 1;
      StaleResults(lib, scope, f, f', cs, k, global);
      ResultsStep(lib, scope, f', cs, k, Memo(global, map[]));
      HoldsStep(lib, f, cs, k);
      assert cs[k] in cs;
      StaleOne(lib, scope, f, f', cs[k], Results(lib, scope, f', cs[..k], Memo(global, map[])).1);
    }
  }

  /** After one call, the cache holds that call's series for every condition. */
  lemma {:induction false} CallLeavesSeries(
      lib: Library, scope: Symbol, f: Frame, cs: seq<Condition>, logic: Logic, c: Condition)
    requires |f.labels| >= 2 && c in cs && NoClash(lib, cs) && Compute(lib, f, c).Some?
    ensures var g := Fired(lib, scope, f, cs, logic, map[]).1;
            KeyOf(scope, f, c) in g && Compute(lib, f, c) == Some(g[KeyOf(scope, f, c)])
  {
    FiredFresh(lib, scope, f, cs, logic, map[]);
    var i :| 0 <= i < |cs| && cs[i] == c;
    CallStores(lib, scope, f, cs, |cs|, i, map[]);
    assert cs[..|cs|] == cs;
    assert SameShape(scope, f, KeyOf(scope, f, cs[i]));
  }

  /** Nothing clears the cache between two cycles or two backtests. A later call with other
      bars of the same length under the same scope gives the decision of the earlier bars. */
  lemma {:induction false} SecondCallRepeatsFirst(
      lib: Library, scope: Symbol, f: Frame, f': Frame, cs: seq<Condition>, logic: Logic)
    requires |f.labels| == |f'.labels| >= 2 && LastLabel(f) == LastLabel(f')
    requires forall c :: c in cs ==> Threshold(c) && Compute(lib, f, c).Some?
    ensures var (first, g) := Fired(lib, scope, f, cs, logic, map[]);
            && first == Meant(lib, f, cs, logic)
            && Fired(lib, scope, f', cs, logic, g).0 == first
  {
    assert NoClash(lib, cs);
    FiredFresh(lib, scope, f, cs, logic, map[]);
    var g := Fired(lib, scope, f, cs, logic, map[]).1;
    forall c | c in cs
      ensures KeyOf(scope, f', c) in g && Compute(lib, f, c) == Some(g[KeyOf(scope, f', c)])
    {
      CallLeavesSeries(lib, scope, f, cs, logic, c);
      assert KeyOf(scope, f', c) == KeyOf(scope, f, c);
    }
    StaleResults(lib, scope, f, f', cs, |cs|, g);
    assert cs[..|cs|] == cs;
  }

  /** Two runs of the bar-by-bar backtester, which passes no symbol: the second run reads
      the first run's prices and misses a threshold its own prices cross. */
  lemma {:induction false} SecondBacktestReadsFirstPrices(lib: Library)
    requires forall f: Frame, p: Params :: lib.calculate(f, "PRICE", p) == Some(Closes(f))
    ensures var cs := [Condition(PRICE, Params(map[]), Gt, Number(50.0))];
            var f, f' := Frame([0, 1], [Some(10.0), Some(10.0)], []), Frame([0, 1], [Some(90.0), Some(90.0)], []);
            && Meant(lib, f', cs, All)
            && !Fired(lib, Ticker(""), f', cs, All, Fired(lib, Ticker(""), f, cs, All, map[]).1).0
  {
    var c := Condition(PRICE, Params(map[]), Gt, Number(50.0));
    var f, f' := Frame([0, 1], [Some(10.0), Some(10.0)], []), Frame([0, 1], [Some(90.0), Some(90.0)], []);
    assert Compute(lib, f, c) == Some(Closes(f)) && Compute(lib, f', c) == Some(Closes(f'));
    assert Last(Closes(f)) == Some(10.0) && Last(Closes(f')) == Some(90.0);
    assert !Holds(lib, f, c) && Holds(lib, f', c);
    assert HoldsEach(lib, f, [c])[0] == false && HoldsEach(lib, f', [c])[0];
    SecondCallRepeatsFirst(lib, Ticker(""), f, f', [c], All);
  }

  // ------------------------------------------------------------------ selectors

  /** A word, an underscore and a number name the indicator of that word at that length. */
  lemma {:induction false} SelectorNamesLength(lib: Library, f: Frame, word: string, digits: string, n: int)
    requires '_' !in word && word != "BBANDS" && lib.parse(digits) == Some(n)
    requires word + "_" + digits !in {"MACD_SIGNAL", "MACD_HIST"}
    ensures var s := lib.calculate(f, word, Params(map["length" := Whole(n)]));
            Derived(lib, f, word + "_" + digits) == if s.Some? then Line(s.value) else NotANumber
  {
    var v := word + "_" + digits;
    FirstUnderscore(word, digits);
    NotBands(word, digits);
  }

  lemma {:induction false} NotBands(word: string, digits: string)
    requires '_' !in word && word != "BBANDS"
    ensures Before(word + "_" + digits, 7) != "BBANDS_"
  {
    var v, b := word + "_" + digits, "BBANDS_";
    assert b[..6] == "BBANDS" && b[6] == '_' && forall k :: 0 <= k < 6 ==> b[k] != '_';
    assert v[|word|] == '_' && v[..|word|] == word;
    if |word| > 6 {
      assert v[6] == word[6] && word[6] in word;
    } else if |word| == 6 {
      assert Before(v, 7) == v[..7] && v[..7][..6] == word;
    }
  }

  lemma {:induction false} FirstUnderscore(word: string, digits: string)
    requires '_' !in word
    ensures var v := word + "_" + digits;
            Find(v, '_') == |word| && Before(v, |word|) == word && After(v, |word|) == digits
  {
    var v := word + "_" + digits;
    assert v[|word|] == '_' && forall k :: 0 <= k < |word| ==> v[k] == word[k];
  }

  /** The two further MACD lines go by their names. */
  lemma {:induction false} MacdSelectors(lib: Library, f: Frame)
    ensures Derived(lib, f, "MACD_SIGNAL") == Line(lib.signalLine(f))
    ensures Derived(lib, f, "MACD_HIST") == Line(lib.histogram(f))
  {
    assert "MACD_SIGNAL" != "MACD_HIST" by { assert |"MACD_SIGNAL"| != |"MACD_HIST"|; }
  }

  /** The selector stands for this band of the bands of length n, or fails with them. */
  predicate BandAsked(lib: Library, f: Frame, v: string, n: int, band: string) {
    var s := lib.calculate(f, "BBANDS", Params(map["length" := Whole(n), "band" := Word(band)]));
    Derived(lib, f, v) == if s.Some? then Line(s.value) else Failed
  }

  lemma {:induction false} BandParts(word: string, digits: string)
    requires word in {"UPPER", "MID", "LOWER"} && '_' !in digits
    ensures BandSelector("BBANDS_" + word + "_" + digits)
         == Some((if word == "UPPER" then "upper" else if word == "MID" then "mid" else "lower", digits))
  {
    var v := "BBANDS_" + word + "_" + digits;
    assert v[6] == '_' && After(v, 6) == word + "_" + digits;
    assert Before(v, 7) == "BBANDS_";
    FirstUnderscore(word, digits);
  }

  lemma {:induction false} BandDerived(lib: Library, f: Frame, v: string, digits: string, n: int, band: string)
    requires Before(v, 7) == "BBANDS_" && BandSelector(v) == Some((band, digits)) && lib.parse(digits) == Some(n)
    ensures BandAsked(lib, f, v, n, band)
  {
    assert v[0] == Before(v, 7)[0];
  }

  /** A band selector asks for that band, at the length it names. */
  lemma {:induction false} BandSelectors(lib: Library, f: Frame, word: string, digits: string, n: int)
    requires word in {"UPPER", "MID", "LOWER"} && '_' !in digits && lib.parse(digits) == Some(n)
    ensures var band := if word == "UPPER" then "upper" else if word == "MID" then "mid" else "lower";
            BandAsked(lib, f, "BBANDS_" + word + "_" + digits, n, band)
  {
    BandParts(word, digits);
    var band := if word == "UPPER" then "upper" else if word == "MID" then "mid" else "lower";
    assert Before("BBANDS_" + word + "_" + digits, 7) == "BBANDS_";
    BandDerived(lib, f, "BBANDS_" + word + "_" + digits, digits, n, band);
  }

  /** A condition asks for its indicator by its name, with its own parameters. */
  lemma {:induction false} ConditionAsks(lib: Library, f: Frame, c: Condition)
    ensures c.indicator == RSI ==> Compute(lib, f, c) == lib.calculate(f, "RSI", c.params)
    ensures c.indicator == SMA ==> Compute(lib, f, c) == lib.calculate(f, "SMA", c.params)
    ensures c.indicator == EMA ==> Compute(lib, f, c) == lib.calculate(f, "EMA", c.params)
    ensures c.indicator == MACD ==> Compute(lib, f, c) == lib.calculate(f, "MACD", c.params)
    ensures c.indicator == BBANDS ==> Compute(lib, f, c) == lib.calculate(f, "BBANDS", c.params)
    ensures c.indicator == ATR ==> Compute(lib, f, c) == lib.calculate(f, "ATR", c.params)
    ensures c.indicator == STOCH ==> Compute(lib, f, c) == lib.calculate(f, "STOCH", c.params)
    ensures c.indicator == PRICE ==> Compute(lib, f, c) == lib.calculate(f, "PRICE", c.params)
    ensures c.indicator == VOLUME ==> Compute(lib, f, c) == lib.calculate(f, "VOLUME", c.params)
    ensures c.indicator == CHANGE_PCT ==> Compute(lib, f, c) == lib.calculate(f, "CHANGE_PCT", c.params)
  {
  }

  // ------------------------------------------------------------------ operators

  /** Entry i is the last one of the series that is not NaN. */
  predicate LastKnown(a: Series, i: nat) {
    i < |a| && a[i].value.Some? && forall k :: i < k < |a| ==> a[k].value.None?
  }

  lemma {:induction false} LastIsKnown(a: Series, i: nat)
    requires LastKnown(a, i)
    ensures Last(a) == a[i].value
    decreases |a|
  {
    if i == |a| - 1 {
    } else {
      LastIsKnown(a[..|a| - 1], i);
    }
  }

  /** Against a threshold every operator compares the last known value: strictly or not as it
      says, equal to within a billionth, and never for an operator that is not known. */
  lemma {:induction false} OperatorsCompare(a: Series, i: nat, x: real)
    requires LastKnown(a, i)
    ensures var v := a[i].value.value;
            && (Judge(Gt, a, Scalar(x)) <==> v > x) && (Judge(Lt, a, Scalar(x)) <==> v < x)
            && (Judge(Ge, a, Scalar(x)) <==> v >= x) && (Judge(Le, a, Scalar(x)) <==> v <= x)
            && (Judge(Eq, a, Scalar(x)) <==> v - x < 0.000000001 && x - v < 0.000000001)
            && !Judge(Operator.Unknown, a, Scalar(x))
  {
    LastIsKnown(a, i);
  }

  /** Against another series they compare the two last known values. */
  lemma {:induction false} LinesCompareLast(op: Operator, a: Series, b: Series, i: nat)
    requires LastKnown(b, i) && op !in {CrossesAbove, CrossesBelow}
    ensures Judge(op, a, Line(b)) <==> Judge(op, a, Scalar(b[i].value.value))
  {
    LastIsKnown(b, i);
  }

  /** A threshold is crossed upwards exactly when the last bar but one is not above it and the
      last bar is, and downwards the other way round. */
  lemma {:induction false} CrossesThreshold(a: Series, p: Point, r: Point, x: real)
    requires Increasing(a + [p, r]) && p.value.Some? && r.value.Some?
    ensures Judge(CrossesAbove, a + [p, r], Scalar(x)) <==> p.value.value <= x < r.value.value
    ensures Judge(CrossesBelow, a + [p, r], Scalar(x)) <==> r.value.value < x <= p.value.value
  {
    var line := Constant(a + [p, r], Some(x));
    var q, s := Point(p.at, Some(x)), Point(r.at, Some(x));
    assert line == Constant(a, Some(x)) + [q, s];
    CrossAtLastTwoBars(a, Constant(a, Some(x)), p, q, r, s);
  }

  /** With a value on each side > and <= are opposites and so are < and >=, as in
      arithmetic; without one, every comparison is false. */
  lemma {:induction false} ComparisonsPartition(a: Series, rhs: Rhs)
    ensures var comparable := Last(a).Some? && AsNumber(rhs).Some? && !rhs.Failed?;
            && (comparable ==> (Judge(Gt, a, rhs) <==> !Judge(Le, a, rhs)) && (Judge(Lt, a, rhs) <==> !Judge(Ge, a, rhs)))
            && (comparable ==> !(Judge(Gt, a, rhs) && Judge(Lt, a, rhs)))
            && (comparable ==> (Judge(Ge, a, rhs) && Judge(Le, a, rhs) ==> Judge(Eq, a, rhs)))
            && (!comparable ==> forall op :: op in {Gt, Lt, Ge, Le, Eq, Operator.Unknown} ==> !Judge(op, a, rhs))
  {
  }
}
