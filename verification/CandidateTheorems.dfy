/** Fusion of the two merges, and what the greedy budget achieves. */
module CandidateTheorems {
  import opened Options
  import opened Rounding
  import opened Symbols
  import opened Candidates

  // ------------------------------------------------------------------ merge

  predicate DistinctKeys(m: seq<Candidate>) {
    forall i, j :: 0 <= i < j < |m| ==> Key(m[i]) != Key(m[j])
  }

  lemma {:induction false} KeyAt(m: seq<Candidate>, i: nat)
    requires DistinctKeys(m) && i < |m|
    ensures IndexOf(m, Key(m[i])) == i
  {
  }

  lemma {:induction false} MergeKeysDistinct(m: seq<Candidate>, xs: seq<Candidate>)
    requires DistinctKeys(m)
    ensures DistinctKeys(MergeInto(m, xs))
  {
    if xs == [] {
    } else {
      MergeKeysDistinct(m, xs[..|xs| - 1]);
    }
  }

  lemma {:induction false} MergeConcat(m: seq<Candidate>, a: seq<Candidate>, b: seq<Candidate>)
    ensures MergeInto(m, a + b) == MergeInto(MergeInto(m, a), b)
  {
    if b == [] {
      assert a + b == a;
    } else {
      assert (a + b)[..|a + b| - 1] == a + b[..|b| - 1];
      MergeConcat(m, a, b[..|b| - 1]);
    }
  }

  lemma {:induction false} PutAt(m: seq<Candidate>, x: Candidate, i: nat)
    requires DistinctKeys(m) && Named(x) && i < |m| && Key(m[i]) == Key(x)
    ensures Put(m, x) == if Higher(x, m[i]) then m[i := x] else m
    ensures DistinctKeys(Put(m, x)) && Key(Put(m, x)[i]) == Key(x)
  {
    KeyAt(m, i);
  }

  /** The slot of a key after offering something for it. */
  lemma {:induction false} PutSlot(m: seq<Candidate>, y: Candidate)
    requires DistinctKeys(m) && Named(y)
    ensures var i := IndexOf(m, Key(y));
            && DistinctKeys(Put(m, y)) && i < |Put(m, y)| && Key(Put(m, y)[i]) == Key(y)
            && Put(m, y)[i] == (if i < |m| && !Higher(y, m[i]) then m[i] else y)
            && (forall z :: Put(m, y)[i := z] == (if i < |m| then m[i := z] else m + [z]))
  {
  }

  /** A later candidate that outranks an earlier one of its key makes it irrelevant. */
  lemma {:induction false} PutAbsorbs(m: seq<Candidate>, y: Candidate, x: Candidate)
    requires DistinctKeys(m) && Named(y) && Named(x) && Key(x) == Key(y) && Higher(x, y)
    ensures Put(Put(m, y), x) == Put(m, x)
  {
    PutSlot(m, y);
    PutAt(Put(m, y), x, IndexOf(m, Key(y)));
  }

  /** One that does not is itself irrelevant. */
  lemma {:induction false} PutIgnores(m: seq<Candidate>, y: Candidate, x: Candidate)
    requires DistinctKeys(m) && Named(y) && Named(x) && Key(x) == Key(y) && !Higher(x, y)
    ensures Put(Put(m, y), x) == Put(m, y)
  {
    PutSlot(m, y);
    PutAt(Put(m, y), x, IndexOf(m, Key(y)));
  }

  lemma {:induction false} PresentCommute(m: seq<Candidate>, x: Candidate, z: Candidate, i: nat, j: nat)
    requires DistinctKeys(m) && Named(x) && Named(z) && i < |m| && j < |m| && i != j
    requires Key(m[i]) == Key(x) && Key(m[j]) == Key(z)
    ensures Put(Put(m, x), z) == Put(Put(m, z), x)
  {
    PutAt(m, x, i);
    PutAt(m, z, j);
    PutAt(Put(m, x), z, j);
    PutAt(Put(m, z), x, i);
  }

  lemma {:induction false} PresentPastFresh(m: seq<Candidate>, x: Candidate, z: Candidate, i: nat)
    requires DistinctKeys(m) && Named(x) && Named(z) && i < |m| && Key(m[i]) == Key(x)
    requires IndexOf(m, Key(z)) == |m|
    ensures Put(Put(m, x), z) == Put(Put(m, z), x)
  {
    PutAt(m, x, i);
    PutSlot(m, z);
    assert Put(m, z) == m + [z];
    assert Put(m, z)[i] == m[i];
    PutAt(m + [z], x, i);
    AbsentStays(m, Put(m, x), Key(z));
    assert Put(Put(m, x), z) == Put(m, x) + [z];
  }

  /** Once a key is present, offering it commutes with offering other keys. */
  lemma {:induction false} PutCommutes(m: seq<Candidate>, x: Candidate, z: Candidate)
    requires DistinctKeys(m) && Named(x) && Named(z) && Key(x) != Key(z)
    requires IndexOf(m, Key(x)) < |m|
    ensures Put(Put(m, x), z) == Put(Put(m, z), x)
  {
    var i, j := IndexOf(m, Key(x)), IndexOf(m, Key(z));
    if j < |m| { PresentCommute(m, x, z, i, j); } else { PresentPastFresh(m, x, z, i); }
  }

  lemma {:induction false} AbsentStays(m: seq<Candidate>, n: seq<Candidate>, k: Symbol)
    requires |m| == |n| && IndexOf(m, k) == |m|
    requires forall i :: 0 <= i < |m| ==> Key(n[i]) == Key(m[i])
    ensures IndexOf(n, k) == |n|
  {
  }

  /** Moving an offer of a present key past a list without that key. */
  lemma {:induction false} PutPast(m: seq<Candidate>, x: Candidate, b: seq<Candidate>)
    requires DistinctKeys(m) && Named(x) && IndexOf(m, Key(x)) < |m|
    requires forall k :: 0 <= k < |b| ==> Named(b[k]) && Key(b[k]) != Key(x)
    ensures MergeInto(Put(m, x), b) == Put(MergeInto(m, b), x)
  {
    if b == [] {
    } else {
      var init, z := b[..|b| - 1], b[|b| - 1];
      PutPast(m, x, init);
      MergeKeysDistinct(m, init);
      KeyStays(m, init, Key(x));
      PutCommutes(MergeInto(m, init), x, z);
    }
  }

  lemma {:induction false} KeyStays(m: seq<Candidate>, xs: seq<Candidate>, k: Symbol)
    requires IndexOf(m, k) < |m|
    ensures IndexOf(MergeInto(m, xs), k) < |MergeInto(m, xs)|
  {
    if xs == [] {
    } else {
      KeyStays(m, xs[..|xs| - 1], k);
      var before := MergeInto(m, xs[..|xs| - 1]);
      var i := IndexOf(before, k);
      assert Key(MergeInto(m, xs)[i]) == k;
    }
  }

  lemma {:induction false} PutMakesPresent(m: seq<Candidate>, x: Candidate)
    requires Named(x)
    ensures IndexOf(Put(m, x), Key(x)) < |Put(m, x)|
  {
    var i := IndexOf(m, Key(x));
    assert Key(Put(m, x)[i]) == Key(x);
  }

  /** Offering x to a merged list and then merging that list in is offering x last. */
  lemma {:induction false} MergePut(m: seq<Candidate>, d: seq<Candidate>, x: Candidate)
    requires DistinctKeys(m) && DistinctKeys(d)
    requires forall k :: 0 <= k < |d| ==> Named(d[k])
    ensures MergeInto(m, Put(d, x)) == Put(MergeInto(m, d), x)
  {
    if Named(x) {
      var i := IndexOf(d, Key(x));
      if i == |d| {
        assert (d + [x])[..|d|] == d;
      } else {
        var y, a, b := d[i], d[..i], d[i + 1..];
        var s := MergeInto(m, a);
        MergeKeysDistinct(m, a);
        MergeAt(m, d, i);
        PutMakesPresent(s, y);
        MergeKeysDistinct(s, [y]);
        SinglePut(s, y);
        PutPast(Put(s, y), x, b);
        if Higher(x, y) {
          PutAbsorbs(s, y, x);
          MergeAt(m, d[i := x], i);
          assert d[i := x][..i] == a && d[i := x][i + 1..] == b;
        } else {
          PutIgnores(s, y, x);
        }
      }
    }
  }

  lemma {:induction false} SinglePut(m: seq<Candidate>, y: Candidate)
    ensures MergeInto(m, [y]) == Put(m, y)
  {
    assert [y][..0] == [];
    assert MergeInto(m, [y]) == Put(MergeInto(m, [y][..0]), y);
  }

  lemma {:induction false} MergeAt(m: seq<Candidate>, d: seq<Candidate>, i: nat)
    requires i < |d|
    ensures MergeInto(m, d) == MergeInto(Put(MergeInto(m, d[..i]), d[i]), d[i + 1..])
  {
    assert d == d[..i] + [d[i]] + d[i + 1..];
    MergeConcat(m, d[..i] + [d[i]], d[i + 1..]);
    MergeConcat(m, d[..i], [d[i]]);
    SinglePut(MergeInto(m, d[..i]), d[i]);
  }

  lemma {:induction false} MergeNamed(m: seq<Candidate>, xs: seq<Candidate>)
    requires forall k :: 0 <= k < |m| ==> Named(m[k])
    ensures forall k :: 0 <= k < |MergeInto(m, xs)| ==> Named(MergeInto(m, xs)[k])
  {
    if xs == [] {
    } else {
      MergeNamed(m, xs[..|xs| - 1]);
    }
  }

  lemma {:induction false} MergeOfMerge(m: seq<Candidate>, raw: seq<Candidate>)
    requires DistinctKeys(m)
    ensures MergeInto(m, Merge(raw)) == MergeInto(m, raw)
  {
    if raw == [] {
    } else {
      var init := raw[..|raw| - 1];
      MergeOfMerge(m, init);
      MergeKeysDistinct([], init);
      MergeNamed([], init);
      MergePut(m, Merge(init), raw[|raw| - 1]);
    }
  }

  /** Fusion: merging while draining changes nothing, as lists. */
  lemma {:induction false} MergeFusion(rules: seq<Candidate>, raw: seq<Candidate>)
    ensures Merge(rules + Merge(raw)) == Merge(rules + raw)
  {
    MergeConcat([], rules, Merge(raw));
    MergeConcat([], rules, raw);
    MergeKeysDistinct([], rules);
    MergeOfMerge(Merge(rules), raw);
  }

  /** The keys of the named candidates in order of first occurrence. */
  function FirstKeys(xs: seq<Candidate>): seq<Symbol> {
    if xs == [] then []
    else
      var ks, x := FirstKeys(xs[..|xs| - 1]), xs[|xs| - 1];
      if Named(x) && Key(x) !in ks then ks + [Key(x)] else ks
  }

  function Keys(m: seq<Candidate>): seq<Symbol> { seq(|m|, i requires 0 <= i < |m| => Key(m[i])) }

  /** The candidate at k is the earliest of maximal priority among its key. */
  predicate Wins(xs: seq<Candidate>, k: nat)
    requires k < |xs|
  {
    && Named(xs[k])
    && (forall j :: 0 <= j < k && Named(xs[j]) && Key(xs[j]) == Key(xs[k]) ==> Higher(xs[k], xs[j]))
    && (forall j :: k < j < |xs| && Named(xs[j]) && Key(xs[j]) == Key(xs[k]) ==> !Higher(xs[j], xs[k]))
  }

  ghost predicate IsWinner(xs: seq<Candidate>, c: Candidate) {
    exists k :: 0 <= k < |xs| && xs[k] == c && Wins(xs, k)
  }

  lemma {:induction false} WinnerKept(init: seq<Candidate>, x: Candidate, c: Candidate)
    requires IsWinner(init, c)
    requires !Named(x) || Key(x) != Key(c) || !Higher(x, c)
    ensures IsWinner(init + [x], c)
  {
    var xs := init + [x];
    var k :| 0 <= k < |init| && init[k] == c && Wins(init, k);
    assert forall j :: 0 <= j < |init| ==> xs[j] == init[j];
    assert Wins(xs, k);
  }

  lemma {:induction false} WinnerReplaced(init: seq<Candidate>, x: Candidate, c: Candidate)
    requires IsWinner(init, c) && Named(x) && Key(x) == Key(c) && Higher(x, c)
    ensures IsWinner(init + [x], x)
  {
    var xs := init + [x];
    var k :| 0 <= k < |init| && init[k] == c && Wins(init, k);
    forall j | 0 <= j < |init| && Named(xs[j]) && Key(xs[j]) == Key(x)
      ensures Higher(x, xs[j])
    {
      assert xs[j] == init[j];
    }
    assert Wins(xs, |init|);
  }

  lemma {:induction false} FirstKeysCover(xs: seq<Candidate>, k: nat)
    requires k < |xs| && Named(xs[k])
    ensures Key(xs[k]) in FirstKeys(xs)
  {
    if k < |xs| - 1 {
      assert xs[..|xs| - 1][k] == xs[k];
      FirstKeysCover(xs[..|xs| - 1], k);
    }
  }

  lemma {:induction false} PutKeepsKeys(m: seq<Candidate>, init: seq<Candidate>, x: Candidate)
    requires DistinctKeys(m) && Keys(m) == FirstKeys(init)
    ensures Keys(Put(m, x)) == FirstKeys(init + [x])
  {
    assert (init + [x])[..|init|] == init;
    var i := IndexOf(m, Key(x));
    assert forall k :: 0 <= k < |m| ==> Keys(m)[k] == Key(m[k]);
    if i < |m| { assert Keys(m)[i] in FirstKeys(init); }
  }

  lemma {:induction false} MergeKeepsKeys(xs: seq<Candidate>)
    ensures DistinctKeys(Merge(xs)) && Keys(Merge(xs)) == FirstKeys(xs)
  {
    MergeKeysDistinct([], xs);
    if xs == [] {
    } else {
      var init, x := xs[..|xs| - 1], xs[|xs| - 1];
      MergeKeepsKeys(init);
      assert xs == init + [x];
      PutKeepsKeys(Merge(init), init, x);
    }
  }

  /** The merged list holds, in order of first occurrence, the earliest candidate of
      maximal priority of each symbol. */
  lemma {:induction false} MergeKeepsWinners(xs: seq<Candidate>)
    ensures DistinctKeys(Merge(xs)) && Keys(Merge(xs)) == FirstKeys(xs)
    ensures forall i :: 0 <= i < |Merge(xs)| ==> IsWinner(xs, Merge(xs)[i])
  {
    MergeKeepsKeys(xs);
    if xs == [] {
    } else {
      var init, x := xs[..|xs| - 1], xs[|xs| - 1];
      MergeKeepsWinners(init);
      assert xs == init + [x];
      forall n | 0 <= n < |Merge(xs)|
        ensures IsWinner(xs, Merge(xs)[n])
      {
        PutKeepsWinner(init, x, Merge(init), n);
      }
    }
  }

  lemma {:induction false} PutKeepsWinner(init: seq<Candidate>, x: Candidate, m: seq<Candidate>, n: nat)
    requires DistinctKeys(m) && Keys(m) == FirstKeys(init)
    requires forall i :: 0 <= i < |m| ==> IsWinner(init, m[i])
    requires n < |Put(m, x)|
    ensures IsWinner(init + [x], Put(m, x)[n])
  {
    var i := IndexOf(m, Key(x));
    if n == |m| {
      FreshKey(m, init, x);
      FreshWinner(init, x);
    } else if Named(x) && n == i && Higher(x, m[i]) {
      WinnerReplaced(init, x, m[n]);
    } else {
      KeyAt(m, n);
      WinnerKept(init, x, m[n]);
    }
  }

  lemma {:induction false} FreshKey(m: seq<Candidate>, init: seq<Candidate>, x: Candidate)
    requires Keys(m) == FirstKeys(init) && IndexOf(m, Key(x)) == |m|
    ensures Key(x) !in FirstKeys(init)
  {
    assert forall k :: 0 <= k < |m| ==> Keys(m)[k] == Key(m[k]);
  }

  lemma {:induction false} FreshWinner(init: seq<Candidate>, x: Candidate)
    requires Named(x) && Key(x) !in FirstKeys(init)
    ensures IsWinner(init + [x], x)
  {
    var xs := init + [x];
    forall j | 0 <= j < |init| && Named(xs[j])
      ensures Key(xs[j]) != Key(x)
    {
      FirstKeysCover(init, j);
    }
    assert Wins(xs, |init|);
  }

  /** One letter in either case, within ASCII. */
  predicate SameLetter(a: char, b: char) {
    || a == b
    || ('a' <= a <= 'z' && 'A' <= b <= 'Z' && a as int - b as int == 32)
    || ('a' <= b <= 'z' && 'A' <= a <= 'Z' && b as int - a as int == 32)
  }

  /** Two spellings of one symbol: letter by letter the same, whatever their case. */
  predicate SameTicker(a: string, b: string) {
    |a| == |b| && forall i :: 0 <= i < |a| ==> SameLetter(a[i], b[i])
  }

  lemma {:induction false} UpperCharSame(a: char, b: char)
    ensures UpperChar(a) == UpperChar(b) <==> SameLetter(a, b)
  {
    assert UpperChar(a) as int == if 'a' <= a <= 'z' then a as int - 32 else a as int;
    assert UpperChar(b) as int == if 'a' <= b <= 'z' then b as int - 32 else b as int;
  }

  lemma {:induction false} UpperAt(s: string, i: nat)
    requires i < |s|
    ensures |Upper(s)| == |s| && Upper(s)[i] == UpperChar(s[i])
  {
    if i == 0 {
      if |s| > 1 { UpperAt(s[1..], 0); }
    } else {
      UpperAt(s[1..], i - 1);
    }
  }

  lemma {:induction false} UpperSame(a: string, b: string)
    ensures Upper(a) == Upper(b) <==> SameTicker(a, b)
  {
    if a != "" { UpperAt(a, 0); }
    if b != "" { UpperAt(b, 0); }
    if |a| == |b| {
      forall i | 0 <= i < |a| ensures Upper(a)[i] == Upper(b)[i] <==> SameLetter(a[i], b[i]) {
        UpperAt(a, i);
        UpperAt(b, i);
        UpperCharSame(a[i], b[i]);
      }
    }
  }

  /** The candidate at k loses its symbol to none: exits go before entries, entries by score,
      and of equals the earlier one. */
  ghost predicate Unbeaten(xs: seq<Candidate>, k: nat)
    requires k < |xs|
  {
    var c := xs[k];
    forall j :: 0 <= j < |xs| && SameTicker(xs[j].symbol, c.symbol) ==>
      && (xs[j].isExit ==> c.isExit)
      && (!c.isExit ==> xs[j].score <= c.score)
      && (j < k ==> (c.isExit ==> !xs[j].isExit) && (!c.isExit ==> xs[j].score < c.score))
  }

  lemma {:induction false} WinsIsUnbeaten(xs: seq<Candidate>, k: nat)
    requires k < |xs|
    ensures Wins(xs, k) <==> xs[k].symbol != "" && Unbeaten(xs, k)
  {
    forall j | 0 <= j < |xs| ensures Key(xs[j]) == Key(xs[k]) <==> SameTicker(xs[j].symbol, xs[k].symbol) {
      UpperSame(xs[j].symbol, xs[k].symbol);
    }
  }

  /** Two candidates of one symbol do not both win. */
  lemma {:induction false} OneWinner(xs: seq<Candidate>, j: nat, k: nat)
    requires j < |xs| && k < |xs| && Wins(xs, j) && Wins(xs, k) && Key(xs[j]) == Key(xs[k])
    ensures j == k
  {
  }

  /** The merge holds exactly the candidates of a symbol that no other of its symbol, in any
      spelling, beats: no entry where there is an exit, no entry with a lower score, and of
      equals the earliest only. */
  lemma {:induction false} MergedIff(xs: seq<Candidate>, c: Candidate)
    ensures c in Merge(xs) <==> exists k :: 0 <= k < |xs| && xs[k] == c && c.symbol != "" && Unbeaten(xs, k)
  {
    MergeKeepsWinners(xs);
    var m := Merge(xs);
    if c in m {
      var i :| 0 <= i < |m| && m[i] == c;
      var k :| 0 <= k < |xs| && xs[k] == c && Wins(xs, k);
      WinsIsUnbeaten(xs, k);
    }
    if k :| 0 <= k < |xs| && xs[k] == c && c.symbol != "" && Unbeaten(xs, k) {
      WinsIsUnbeaten(xs, k);
      FirstKeysCover(xs, k);
      var i :| 0 <= i < |m| && Keys(m)[i] == Key(c);
      assert IsWinner(xs, m[i]);
      var j :| 0 <= j < |xs| && xs[j] == m[i] && Wins(xs, j);
      OneWinner(xs, j, k);
    }
  }

  // ------------------------------------------------------------------ sorting

  predicate Descending(xs: seq<Candidate>) {
    forall i, j :: 0 <= i < j < |xs| ==> xs[i].score >= xs[j].score
  }

  predicate NotBelow(xs: seq<Candidate>, s: real) { forall i :: 0 <= i < |xs| ==> xs[i].score >= s }

  lemma {:induction false} InsertDescends(sorted: seq<Candidate>, c: Candidate, bound: real)
    requires Descending(sorted)
    ensures Descending(InsertByScore(sorted, c))
    ensures NotBelow(sorted, bound) && c.score >= bound ==> NotBelow(InsertByScore(sorted, c), bound)
  {
    if sorted != [] && sorted[|sorted| - 1].score < c.score {
      var init, last := sorted[..|sorted| - 1], sorted[|sorted| - 1];
      InsertDescends(init, c, last.score);
      InsertDescends(init, c, bound);
      assert NotBelow(init, last.score);
    }
  }

  lemma {:induction false} InsertPermutes(sorted: seq<Candidate>, c: Candidate)
    ensures multiset(InsertByScore(sorted, c)) == multiset(sorted) + multiset{c}
  {
    if sorted != [] && sorted[|sorted| - 1].score < c.score {
      var init, last := sorted[..|sorted| - 1], sorted[|sorted| - 1];
      assert sorted == init + [last];
      InsertPermutes(init, c);
    }
  }

  /** The candidates of one score, in their order. */
  function WithScore(xs: seq<Candidate>, s: real): seq<Candidate> {
    if xs == [] then []
    else WithScore(xs[..|xs| - 1], s) + if xs[|xs| - 1].score == s then [xs[|xs| - 1]] else []
  }

  lemma {:induction false} InsertKeepsTies(sorted: seq<Candidate>, c: Candidate, s: real)
    ensures WithScore(InsertByScore(sorted, c), s) == WithScore(sorted, s) + if c.score == s then [c] else []
  {
    if sorted == [] || sorted[|sorted| - 1].score >= c.score {
      WithScoreLast(sorted, c, s);
    } else {
      var init, last := sorted[..|sorted| - 1], sorted[|sorted| - 1];
      InsertKeepsTies(init, c, s);
      WithScoreLast(InsertByScore(init, c), last, s);
      if last.score == s {
      } else {
        assert WithScore(sorted, s) == WithScore(init, s);
      }
    }
  }

  lemma {:induction false} WithScoreLast(xs: seq<Candidate>, x: Candidate, s: real)
    ensures WithScore(xs + [x], s) == WithScore(xs, s) + if x.score == s then [x] else []
  {
    assert (xs + [x])[..|xs|] == xs;
  }

  /** Score-descending, stable, and a permutation. */
  lemma {:induction false} SortIsStable(xs: seq<Candidate>, s: real)
    ensures Descending(SortByScore(xs)) && multiset(SortByScore(xs)) == multiset(xs)
    ensures WithScore(SortByScore(xs), s) == WithScore(xs, s)
  {
    if xs == [] {
    } else {
      var init := xs[..|xs| - 1];
      assert xs == init + [xs[|xs| - 1]];
      SortIsStable(init, s);
      InsertDescends(SortByScore(init), xs[|xs| - 1], s);
      InsertPermutes(SortByScore(init), xs[|xs| - 1]);
      InsertKeepsTies(SortByScore(init), xs[|xs| - 1], s);
    }
  }

  lemma {:induction false} DescendingSortsToItself(xs: seq<Candidate>)
    requires Descending(xs)
    ensures SortByScore(xs) == xs
  {
    if xs == [] {
    } else {
      var init, last := xs[..|xs| - 1], xs[|xs| - 1];
      DescendingSortsToItself(init);
      if init != [] { assert init[|init| - 1] == xs[|xs| - 2]; }
      assert InsertByScore(init, last) == init + [last];
      assert xs == init + [last];
    }
  }

  // ------------------------------------------------------------------ budget

  /** The selection keeps within what is left of the budget; below zero it may be empty. */
  lemma {:induction false} GreedyWithinBudget(xs: seq<Candidate>, consumed: real, budget: real)
    ensures var g := Greedy(xs, consumed, budget); g == [] || consumed + TotalRisk(g) <= budget
  {
    if xs == [] {
    } else {
      if consumed + Risk(xs[0]) > budget {
        GreedyWithinBudget(xs[1..], consumed, budget);
      } else {
        GreedyWithinBudget(xs[1..], consumed + Risk(xs[0]), budget);
      }
    }
  }

  /** No rejected candidate would still fit into the final selection. */
  lemma {:induction false} GreedyIsMaximal(xs: seq<Candidate>, consumed: real, budget: real, c: Candidate)
    requires forall x :: x in Greedy(xs, consumed, budget) ==> Risk(x) >= 0.0
    requires multiset(xs)[c] > multiset(Greedy(xs, consumed, budget))[c]
    ensures consumed + TotalRisk(Greedy(xs, consumed, budget)) + Risk(c) > budget
  {
    assert xs == [xs[0]] + xs[1..];
    assert multiset(xs) == multiset{xs[0]} + multiset(xs[1..]);
    var rest := Greedy(xs[1..], if consumed + Risk(xs[0]) > budget then consumed else consumed + Risk(xs[0]), budget);
    if consumed + Risk(xs[0]) > budget {
      if c == xs[0] {
        RiskNonNegative(rest);
      } else {
        GreedyIsMaximal(xs[1..], consumed, budget, c);
      }
    } else {
      assert multiset([xs[0]] + rest) == multiset{xs[0]} + multiset(rest);
      GreedyIsMaximal(xs[1..], consumed + Risk(xs[0]), budget, c);
    }
  }

  lemma {:induction false} RiskNonNegative(xs: seq<Candidate>)
    requires forall x :: x in xs ==> Risk(x) >= 0.0
    ensures TotalRisk(xs) >= 0.0
  {
    if xs == [] {
    } else {
      assert xs[0] in xs;
      RiskNonNegative(xs[1..]);
    }
  }

  /** The list `part` is `whole` with some members left out. */
  predicate LeavesOut(part: seq<Candidate>, whole: seq<Candidate>)
    decreases |whole|
  {
    if whole == [] then part == []
    else
      || (part != [] && part[0] == whole[0] && LeavesOut(part[1..], whole[1..]))
      || LeavesOut(part, whole[1..])
  }

  lemma {:induction false} GreedyLeavesOut(xs: seq<Candidate>, consumed: real, budget: real)
    ensures LeavesOut(Greedy(xs, consumed, budget), xs)
  {
    if xs == [] {
    } else {
      GreedyLeavesOut(xs[1..], consumed, budget);
      GreedyLeavesOut(xs[1..], consumed + Risk(xs[0]), budget);
      var rest := Greedy(xs[1..], consumed + Risk(xs[0]), budget);
      assert ([xs[0]] + rest)[1..] == rest;
    }
  }

  lemma {:induction false} LeavesOutOffered(part: seq<Candidate>, whole: seq<Candidate>)
    requires LeavesOut(part, whole)
    ensures multiset(part) <= multiset(whole)
    decreases |whole|
  {
    if whole == [] {
    } else {
      assert whole == [whole[0]] + whole[1..];
      if part != [] && part[0] == whole[0] && LeavesOut(part[1..], whole[1..]) {
        LeavesOutOffered(part[1..], whole[1..]);
        assert part == [part[0]] + part[1..];
      } else {
        LeavesOutOffered(part, whole[1..]);
      }
    }
  }

  predicate NotAbove(xs: seq<Candidate>, s: real) { forall i :: 0 <= i < |xs| ==> xs[i].score <= s }

  lemma {:induction false} TailDescends(xs: seq<Candidate>)
    requires Descending(xs) && xs != []
    ensures Descending(xs[1..]) && NotAbove(xs[1..], xs[0].score)
  {
  }

  lemma {:induction false} HeadDescends(x: Candidate, xs: seq<Candidate>, s: real)
    requires Descending(xs) && NotAbove(xs, x.score) && x.score <= s
    ensures Descending([x] + xs) && NotAbove([x] + xs, s)
  {
  }

  lemma {:induction false} LeavesOutDescends(part: seq<Candidate>, whole: seq<Candidate>, s: real)
    requires LeavesOut(part, whole) && Descending(whole) && NotAbove(whole, s)
    ensures Descending(part) && NotAbove(part, s)
    decreases |whole|
  {
    if whole == [] {
    } else {
      TailDescends(whole);
      if part != [] && part[0] == whole[0] && LeavesOut(part[1..], whole[1..]) {
        LeavesOutDescends(part[1..], whole[1..], whole[0].score);
        assert part == [part[0]] + part[1..];
        HeadDescends(part[0], part[1..], s);
      } else {
        LeavesOutDescends(part, whole[1..], s);
      }
    }
  }

  /** The same filter, from the front. */
  lemma {:induction false} WithScoreHead(x: Candidate, xs: seq<Candidate>, s: real)
    ensures WithScore([x] + xs, s) == (if x.score == s then [x] else []) + WithScore(xs, s)
    decreases |xs|
  {
    if xs == [] {
      assert ([x] + xs)[..0] == [];
    } else {
      WithScoreHead(x, xs[..|xs| - 1], s);
      assert ([x] + xs)[..|xs|] == [x] + xs[..|xs| - 1];
    }
  }

  lemma {:induction false} FilterLeavesOut(part: seq<Candidate>, whole: seq<Candidate>, s: real)
    requires LeavesOut(part, whole)
    ensures LeavesOut(WithScore(part, s), WithScore(whole, s))
    decreases |whole|
  {
    if whole == [] {
    } else {
      var rest := WithScore(whole[1..], s);
      assert whole == [whole[0]] + whole[1..];
      WithScoreHead(whole[0], whole[1..], s);
      if part != [] && part[0] == whole[0] && LeavesOut(part[1..], whole[1..]) {
        FilterLeavesOut(part[1..], whole[1..], s);
        assert part == [part[0]] + part[1..];
        WithScoreHead(part[0], part[1..], s);
        LeavesOutPair(whole[0], WithScore(part[1..], s), rest, s);
      } else {
        FilterLeavesOut(part, whole[1..], s);
        LeavesOutMore(whole[0], WithScore(part, s), rest, s);
      }
    }
  }

  lemma {:induction false} LeavesOutPair(x: Candidate, part: seq<Candidate>, whole: seq<Candidate>, s: real)
    requires LeavesOut(part, whole)
    ensures var one := if x.score == s then [x] else [];
            LeavesOut(one + part, one + whole)
  {
    assert ([x] + part)[1..] == part && ([x] + whole)[1..] == whole;
    assert [] + part == part && [] + whole == whole;
  }

  lemma {:induction false} LeavesOutMore(x: Candidate, part: seq<Candidate>, whole: seq<Candidate>, s: real)
    requires LeavesOut(part, whole)
    ensures LeavesOut(part, (if x.score == s then [x] else []) + whole)
  {
    assert ([x] + whole)[1..] == whole && [] + whole == whole;
  }

  /** The allocator, for every list, risk and budget: what is kept is within the budget, was
      offered and is in score order, candidates of equal score in the order they came; and
      unless something kept has negative risk, no rejected candidate would still fit. */
  lemma {:induction false} SelectionIsSound(candidates: seq<Candidate>, budget: real, c: Candidate, s: real)
    ensures var kept := Select(candidates, budget);
            && (kept == [] || TotalRisk(kept) <= budget)
            && Descending(kept) && multiset(kept) <= multiset(candidates)
            && LeavesOut(WithScore(kept, s), WithScore(candidates, s))
            && (multiset(candidates)[c] > multiset(kept)[c] && (forall x :: x in kept ==> Risk(x) >= 0.0) ==>
                  TotalRisk(kept) + Risk(c) > budget)
  {
    var sorted := SortByScore(candidates);
    SortIsStable(candidates, s);
    GreedyLeavesOut(sorted, 0.0, budget);
    FilterLeavesOut(Select(candidates, budget), sorted, s);
    GreedyWithinBudget(sorted, 0.0, budget);
    var kept := Select(candidates, budget);
    LeavesOutOffered(kept, sorted);
    if sorted != [] { LeavesOutDescends(kept, sorted, sorted[0].score); }
    if multiset(candidates)[c] > multiset(kept)[c] && forall x :: x in kept ==> Risk(x) >= 0.0 {
      GreedyIsMaximal(sorted, 0.0, budget, c);
    }
  }

  // ------------------------------------------------------------------ optimality

  /** Remove the first occurrence. */
  function Drop(pick: seq<Candidate>, c: Candidate): seq<Candidate>
    requires c in pick
  {
    if pick[0] == c then pick[1..] else [pick[0]] + Drop(pick[1..], c)
  }

  lemma {:induction false} DropOne(pick: seq<Candidate>, c: Candidate)
    requires c in pick
    ensures multiset(Drop(pick, c)) == multiset(pick) - multiset{c}
    ensures TotalScore(Drop(pick, c)) == TotalScore(pick) - c.score
    ensures TotalRisk(Drop(pick, c)) == TotalRisk(pick) - Risk(c)
    ensures |Drop(pick, c)| == |pick| - 1
  {
    assert pick == [pick[0]] + pick[1..];
    if pick[0] != c { DropOne(pick[1..], c); }
  }

  predicate Uniform(xs: seq<Candidate>, r: real) {
    forall i :: 0 <= i < |xs| ==> Risk(xs[i]) == r && xs[i].score >= 0.0
  }

  /** Giving up one member of a pick for the head of the list, or for nothing. */
  lemma {:induction false} WithoutOne(xs: seq<Candidate>, pick: seq<Candidate>, y: Candidate, r: real)
    requires xs != [] && Uniform(xs, r) && multiset(pick) <= multiset(xs) && y in pick
    requires y == xs[0] || xs[0] !in pick
    ensures multiset(Drop(pick, y)) <= multiset(xs[1..])
    ensures TotalRisk(Drop(pick, y)) == TotalRisk(pick) - r
    ensures TotalScore(Drop(pick, y)) == TotalScore(pick) - y.score
  {
    assert xs == [xs[0]] + xs[1..];
    PickRisk(xs, pick, r);
    DropOne(pick, y);
  }

  lemma {:induction false} HeadIsBest(xs: seq<Candidate>, pick: seq<Candidate>, y: Candidate)
    requires xs != [] && Descending(xs) && multiset(pick) <= multiset(xs) && y in pick
    ensures y.score <= xs[0].score
  {
    assert y in multiset(pick) && y in multiset(xs);
    var i :| 0 <= i < |xs| && xs[i] == y;
  }

  /** A pick without one of its members, which scores no more than the head of the list. */
  lemma {:induction false} GiveUpOne(xs: seq<Candidate>, pick: seq<Candidate>, r: real) returns (rest: seq<Candidate>)
    requires Descending(xs) && Uniform(xs, r) && multiset(pick) <= multiset(xs) && pick != []
    ensures xs != [] && multiset(rest) <= multiset(xs[1..])
    ensures TotalRisk(rest) == TotalRisk(pick) - r && TotalScore(pick) <= xs[0].score + TotalScore(rest)
  {
    assert pick[0] in multiset(pick) && pick[0] in multiset(xs);
    var y := if xs[0] in pick then xs[0] else pick[0];
    WithoutOne(xs, pick, y, r);
    HeadIsBest(xs, pick, y);
    rest := Drop(pick, y);
  }

  /** With one risk for all, nothing feasible scores more than the greedy selection. */
  lemma {:induction false} GreedyOptimal(
      xs: seq<Candidate>, pick: seq<Candidate>, consumed: real, budget: real, r: real)
    requires Descending(xs) && r >= 0.0 && Uniform(xs, r)
    requires multiset(pick) <= multiset(xs)
    requires consumed + TotalRisk(pick) <= budget
    ensures TotalScore(pick) <= TotalScore(Greedy(xs, consumed, budget))
    decreases |xs|
  {
    if pick == [] {
      GreedyScoreNonNegative(xs, consumed, budget);
    } else {
      var rest := GiveUpOne(xs, pick, r);
      TailUniform(xs, r);
      PickRisk(xs[1..], rest, r);
      RestRisk(rest, r);
      GreedyOptimal(xs[1..], rest, consumed + r, budget, r);
      GreedyTakesHead(xs, consumed, budget, r);
    }
  }

  lemma {:induction false} TailUniform(xs: seq<Candidate>, r: real)
    requires xs != [] && Descending(xs) && Uniform(xs, r)
    ensures Descending(xs[1..]) && Uniform(xs[1..], r)
  {
  }

  lemma {:induction false} GreedyTakesHead(xs: seq<Candidate>, consumed: real, budget: real, r: real)
    requires xs != [] && Risk(xs[0]) == r && consumed + r <= budget
    ensures TotalScore(Greedy(xs, consumed, budget))
         == xs[0].score + TotalScore(Greedy(xs[1..], consumed + r, budget))
  {
  }

  lemma {:induction false} PickRisk(xs: seq<Candidate>, pick: seq<Candidate>, r: real)
    requires Uniform(xs, r)
    requires multiset(pick) <= multiset(xs)
    ensures forall y :: y in pick ==> Risk(y) == r
  {
    forall y | y in pick
      ensures Risk(y) == r
    {
      assert y in multiset(pick) && y in multiset(xs);
      assert y in xs;
    }
  }

  lemma {:induction false} RestRisk(rest: seq<Candidate>, r: real)
    requires forall y :: y in rest ==> Risk(y) == r
    requires r >= 0.0
    ensures TotalRisk(rest) >= 0.0
  {
    if rest == [] {
    } else {
      assert rest[0] in rest;
      RestRisk(rest[1..], r);
    }
  }

  lemma {:induction false} GreedyScoreNonNegative(xs: seq<Candidate>, consumed: real, budget: real)
    requires forall i :: 0 <= i < |xs| ==> xs[i].score >= 0.0
    ensures TotalScore(Greedy(xs, consumed, budget)) >= 0.0
  {
    if xs == [] {
    } else {
      GreedyScoreNonNegative(xs[1..], consumed, budget);
      GreedyScoreNonNegative(xs[1..], consumed + Risk(xs[0]), budget);
    }
  }

  /** The allocator is optimal when all candidates carry the same risk, as its callers
      set it: no feasible pick from the candidates scores more. */
  lemma {:induction false} SelectionIsOptimal(candidates: seq<Candidate>, pick: seq<Candidate>, budget: real, r: real)
    requires r >= 0.0
    requires forall x :: x in candidates ==> Risk(x) == r && x.score >= 0.0
    requires multiset(pick) <= multiset(candidates) && TotalRisk(pick) <= budget
    ensures TotalScore(pick) <= TotalScore(Select(candidates, budget))
  {
    var sorted := SortByScore(candidates);
    SortIsStable(candidates, 0.0);
    forall i | 0 <= i < |sorted|
      ensures Risk(sorted[i]) == r && sorted[i].score >= 0.0
    {
      assert sorted[i] in multiset(sorted) && sorted[i] in multiset(candidates);
    }
    GreedyOptimal(sorted, pick, 0.0, budget, r);
  }

  /** With unequal risks greedy is not optimal: one large candidate crowds out two. */
  lemma {:induction false} GreedyNotOptimalInGeneral()
    ensures exists candidates: seq<Candidate>, pick: seq<Candidate> ::
              && (forall x :: x in candidates ==> Risk(x) >= 0.0 && x.score >= 0.0)
              && multiset(pick) <= multiset(candidates) && TotalRisk(pick) <= 3.0
              && TotalScore(pick) > TotalScore(Select(candidates, 3.0))
  {
    var a := Candidate("A", 60.0, Some(3.0), false, "");
    var b, c := Candidate("B", 50.0, Some(1.0), false, ""), Candidate("C", 50.0, Some(1.0), false, "");
    var candidates, pick := [a, b, c], [b, c];
    OneCrowdsOutTwo(a, b, c);
    assert multiset(pick) <= multiset(candidates) by { assert candidates == [a] + pick; }
    forall x | x in candidates ensures Risk(x) >= 0.0 && x.score >= 0.0 {}
  }

  lemma {:induction false} OneCrowdsOutTwo(a: Candidate, b: Candidate, c: Candidate)
    requires Risk(a) == 3.0 && Risk(b) == Risk(c) == 1.0
    requires a.score == 60.0 && b.score == c.score == 50.0
    ensures TotalRisk([b, c]) == 2.0 && TotalScore([b, c]) == 100.0
    ensures TotalScore(Select([a, b, c], 3.0)) == 60.0
  {
    TotalsOfTwo(b, c);
    DescendingSortsToItself([a, b, c]);
    assert [a, b, c][1..] == [b, c];
    NeitherFits(b, c);
    assert Greedy([a, b, c], 0.0, 3.0) == [a] + [] == [a];
    assert [a][1..] == [];
  }

  lemma {:induction false} TotalsOfTwo(b: Candidate, c: Candidate)
    ensures TotalRisk([b, c]) == Risk(b) + Risk(c) && TotalScore([b, c]) == b.score + c.score
  {
    assert [b, c][1..] == [c] && [c][1..] == [];
    assert TotalRisk([c]) == Risk(c) + TotalRisk([]) && TotalScore([c]) == c.score + TotalScore([]);
  }

  lemma {:induction false} NeitherFits(b: Candidate, c: Candidate)
    requires Risk(b) == Risk(c) == 1.0
    ensures Greedy([b, c], 3.0, 3.0) == []
  {
    assert [b, c][1..] == [c] && [c][1..] == [];
    assert Greedy([c], 3.0, 3.0) == Greedy([], 3.0, 3.0) == [];
  }

  // ------------------------------------------------------------------ exits and the budget

  function Burden(n: nat, r: real): real { if n == 0 then 0.0 else Burden(n - 1, r) + r }

  lemma {:induction false} BurdenGrows(n: nat, r: real)
    requires r >= 0.0
    ensures Burden(n, r) >= 0.0
    ensures n > 0 ==> Burden(n, r) >= r
  {
    if n == 0 {
    } else {
      BurdenGrows(n - 1, r);
    }
  }

  /** With one risk r for all, the list position i is kept exactly when i + 1 risks fit:
      its rank decides, whether it is an exit or not. */
  lemma {:induction false} KeptIffRankFits(xs: seq<Candidate>, consumed: real, budget: real, r: real, i: nat)
    requires r >= 0.0 && i < |xs|
    requires forall k :: 0 <= k < |xs| ==> Risk(xs[k]) == r
    ensures Greedy(xs, consumed, budget) <= xs
    ensures i < |Greedy(xs, consumed, budget)| <==> consumed + Burden(i + 1, r) <= budget
  {
    BurdenGrows(i + 1, r);
    if consumed + r > budget {
      NothingFits(xs, consumed, budget, r);
    } else if |xs| > 1 {
      KeptIffRankFits(xs[1..], consumed + r, budget, r, if i > 0 then i - 1 else 0);
      BurdenShift(i, r);
      assert xs == [xs[0]] + xs[1..];
    } else {
      assert xs[1..] == [];
      assert Burden(1, r) == Burden(0, r) + r;
    }
  }

  lemma {:induction false} BurdenShift(n: nat, r: real)
    ensures Burden(n + 1, r) == r + Burden(n, r)
  {
  }

  lemma {:induction false} NothingFits(xs: seq<Candidate>, consumed: real, budget: real, r: real)
    requires consumed + r > budget
    requires forall k :: 0 <= k < |xs| ==> Risk(xs[k]) == r
    ensures Greedy(xs, consumed, budget) == []
  {
    if xs == [] {
    } else {
      NothingFits(xs[1..], consumed, budget, r);
    }
  }

  /** Exits win their symbol whatever their score, yet the budget ranks by score alone:
      with the default budget, an exit behind three better scored entries is left out. */
  lemma {:induction false} FourthCrowdedOut(rules: seq<Candidate>, exit: Candidate)
    requires |rules| == 3 && Descending(rules + [exit]) && DistinctKeys(rules + [exit])
    requires forall x :: x in rules + [exit] ==> Named(x) && Risk(x) == RISK_PER_TRADE_PCT
    requires exit.isExit && forall x :: x in rules ==> !x.isExit
    ensures exit in Merge(rules + [exit])
    ensures exit !in Select(Merge(rules + [exit]), MAX_DAILY_RISK * 100.0)
  {
    var all := rules + [exit];
    assert all[3] == exit;
    DistinctMergesToItself(all);
    FourthIsOut(all);
  }

  lemma {:induction false} FourthIsOut(all: seq<Candidate>)
    requires |all| == 4 && Descending(all)
    requires forall i :: 0 <= i < 4 ==> Risk(all[i]) == 1.0
    requires forall i :: 0 <= i < 3 ==> all[i] != all[3]
    ensures all[3] !in Select(all, MAX_DAILY_RISK * 100.0)
  {
    DescendingSortsToItself(all);
    KeptIffRankFits(all, 0.0, 3.0, 1.0, 3);
    assert Burden(2, 1.0) == 2.0;
    assert Burden(4, 1.0) == 4.0;
  }

  lemma {:induction false} DistinctMergesToItself(xs: seq<Candidate>)
    requires DistinctKeys(xs) && forall k :: 0 <= k < |xs| ==> Named(xs[k])
    ensures Merge(xs) == xs
  {
    if xs == [] {
    } else {
      var init, x := xs[..|xs| - 1], xs[|xs| - 1];
      DistinctMergesToItself(init);
      assert xs == init + [x];
    }
  }

  lemma {:induction false} UnitRisks(xs: seq<Candidate>, used: nat)
    requires used <= 3 && forall k :: 0 <= k < |xs| ==> Risk(xs[k]) == 1.0
    ensures Greedy(xs, used as real, 3.0) == if |xs| <= 3 - used then xs else xs[..3 - used]
  {
    if xs == [] {
    } else if used == 3 {
      NothingFits(xs, 3.0, 3.0, 1.0);
    } else {
      var rest := xs[1..];
      UnitRisks(rest, used + 1);
      assert xs == [xs[0]] + rest;
      if |rest| > 2 - used { assert xs[..3 - used] == [xs[0]] + rest[..2 - used]; }
    }
  }

  /** Where no candidate states its risk each counts one per cent, so the default budget of
      three keeps the three best scores, or all where there are fewer. */
  lemma {:induction false} DefaultKeepsThree(xs: seq<Candidate>)
    requires forall x :: x in xs ==> x.riskPct.None?
    ensures var sorted := SortByScore(xs);
            Select(xs, MAX_DAILY_RISK * 100.0) == if |sorted| <= 3 then sorted else sorted[..3]
  {
    var sorted := SortByScore(xs);
    SortIsStable(xs, 0.0);
    forall k | 0 <= k < |sorted| ensures Risk(sorted[k]) == 1.0 {
      assert sorted[k] in multiset(sorted) && sorted[k] in multiset(xs);
    }
    UnitRisks(sorted, 0);
  }

  /** What is kept is stamped with its own risk, one per cent where none is given, to three
      decimals. */
  lemma {:induction false} StampsAre(xs: seq<Candidate>, i: nat, n: int)
    requires i < |xs|
    ensures var kept := Stamp(xs);
            var risk := match xs[i].riskPct case Some(r) => r case None => 1.0;
            && |kept| == |xs| && kept[i].candidate == xs[i]
            && (1000.0 * kept[i].risk == n as real <==> Nearest(1000.0 * risk, n))
  {
    RoundsToGrid(Risk(xs[i]), n);
  }
}
