/** Normalizing a context is a canonical form. */
module ContextTheorems {
  import opened Options
  import opened ContextCanon
  import opened JsonText

  /** What a parser returns: no repeated key, numbers that look like numbers. */
  ghost predicate Parsed(j: Json)
    decreases j
  {
    match j
    case Number(text) => NumberText(text)
    case List(items) => forall i :: 0 <= i < |items| ==> Parsed(items[i])
    case Dict(fs) => DistinctKeys(fs) && forall i :: 0 <= i < |fs| ==> Parsed(fs[i].value)
    case _ => true
  }

  ghost predicate DistinctKeys(fs: seq<Field>) {
    forall i, j :: 0 <= i < j < |fs| ==> fs[i].key != fs[j].key
  }

  function Keys(fs: seq<Field>): set<string> { set f | f in fs :: f.key }

  /** Equal up to key order, at every depth. */
  ghost predicate Same(a: Json, b: Json)
    decreases a
  {
    match a
    case List(xs) =>
      b.List? && |xs| == |b.items| && forall i :: 0 <= i < |xs| ==> Same(xs[i], b.items[i])
    case Dict(fs) =>
      && b.Dict? && Keys(fs) == Keys(b.fields)
      && forall i, j :: 0 <= i < |fs| && 0 <= j < |b.fields| && fs[i].key == b.fields[j].key ==>
           Same(fs[i].value, b.fields[j].value)
    case _ => a == b
  }

  // ------------------------------------------------------------------ the order on keys

  lemma {:induction false} PrecedesTransitive(a: string, b: string, c: string)
    requires Precedes(a, b) && Precedes(b, c)
    ensures Precedes(a, c)
  {
    if a != "" && a[0] == b[0] == c[0] {
      PrecedesTransitive(a[1..], b[1..], c[1..]);
    }
  }

  lemma {:induction false} PrecedesTotal(a: string, b: string)
    ensures a == b || Precedes(a, b) || Precedes(b, a)
    ensures !(Precedes(a, b) && Precedes(b, a)) && !Precedes(a, a)
  {
    if a == "" {
    } else {
      PrecedesTotal(a[1..], a[1..]);
      if b != "" && a[0] == b[0] {
        PrecedesTotal(a[1..], b[1..]);
        assert a == [a[0]] + a[1..] && b == [b[0]] + b[1..];
      }
    }
  }

  ghost predicate InOrder(fs: seq<Field>) {
    forall i, j :: 0 <= i < j < |fs| ==> Precedes(fs[i].key, fs[j].key)
  }

  lemma {:induction false} PrependInOrder(f: Field, fs: seq<Field>)
    requires InOrder(fs) && forall g :: g in fs ==> Precedes(f.key, g.key)
    ensures InOrder([f] + fs)
  {
  }

  lemma {:induction false} InsertInOrder(f: Field, fs: seq<Field>)
    requires InOrder(fs) && forall g :: g in fs ==> g.key != f.key
    ensures InOrder(Insert(f, fs)) && forall g :: g in Insert(f, fs) <==> g == f || g in fs
    decreases |fs|
  {
    if fs == [] {
    } else {
      PrecedesTotal(fs[0].key, f.key);
      if Precedes(fs[0].key, f.key) {
        InsertInOrder(f, fs[1..]);
        assert fs == [fs[0]] + fs[1..];
        PrependInOrder(fs[0], Insert(f, fs[1..]));
      } else {
        forall j | 0 <= j < |fs| ensures Precedes(f.key, fs[j].key) {
          if j > 0 { PrecedesTransitive(f.key, fs[0].key, fs[j].key); }
        }
      }
    }
  }

  lemma {:induction false} SortFieldsInOrder(fs: seq<Field>)
    requires DistinctKeys(fs)
    ensures InOrder(SortFields(fs)) && forall g :: g in SortFields(fs) <==> g in fs
    decreases |fs|
  {
    if fs == [] {
    } else {
      SortFieldsInOrder(fs[1..]);
      assert fs == [fs[0]] + fs[1..];
      InsertInOrder(fs[0], SortFields(fs[1..]));
    }
  }

  lemma {:induction false} HeadIn(a: seq<Field>)
    requires a != []
    ensures a[0] in a
  {
  }

  /** A list in key order is determined by its members. */
  lemma {:induction false} InOrderUnique(a: seq<Field>, b: seq<Field>)
    requires InOrder(a) && InOrder(b) && forall f :: f in a <==> f in b
    ensures a == b
    decreases |a|
  {
    if a == [] {
      if b != [] { HeadIn(b); }
    } else {
      HeadIn(a);
      HeadsAgree(a, b);
      TailMembers(a);
      TailMembers(b);
      InOrderUnique(a[1..], b[1..]);
      assert a == [a[0]] + a[1..] && b == [b[0]] + b[1..];
    }
  }

  lemma {:induction false} HeadsAgree(a: seq<Field>, b: seq<Field>)
    requires InOrder(a) && InOrder(b) && a != [] && b != [] && forall f :: f in a <==> f in b
    ensures a[0] == b[0]
  {
    assert a[0] in a && b[0] in b;
    var j :| 0 <= j < |b| && b[j] == a[0];
    var i :| 0 <= i < |a| && a[i] == b[0];
    if i > 0 && j > 0 {
      PrecedesTotal(a[0].key, b[0].key);
    }
  }

  lemma {:induction false} TailMembers(a: seq<Field>)
    requires InOrder(a) && a != []
    ensures forall f :: f in a[1..] <==> f in a && f != a[0]
  {
    assert a == [a[0]] + a[1..];
    forall i | 1 <= i < |a| ensures a[i] != a[0] {
      PrecedesTotal(a[0].key, a[0].key);
    }
  }

  // ------------------------------------------------------------------ sorting the whole tree

  function SortedValues(fs: seq<Field>): (r: seq<Field>)
    ensures |r| == |fs| && forall i :: 0 <= i < |fs| ==> r[i] == Field(fs[i].key, SortKeys(fs[i].value))
  {
    seq(|fs|, i requires 0 <= i < |fs| => Field(fs[i].key, SortKeys(fs[i].value)))
  }

  lemma {:induction false} SortKeysDict(fs: seq<Field>)
    ensures SortKeys(Dict(fs)) == Dict(SortFields(SortedValues(fs)))
  {
    assert SortedValues(fs) == seq(|fs|, i requires 0 <= i < |fs| => Field(fs[i].key, SortKeys(fs[i].value)));
  }

  lemma {:induction false} MemberOf(fs: seq<Field>, i: nat)
    requires i < |fs|
    ensures fs[i].key in Keys(fs) && SortedValues(fs)[i] in SortedValues(fs)
  {
    assert fs[i] in fs;
  }

  lemma {:induction false} SameValuesSorted(a: seq<Field>, b: seq<Field>)
    requires Keys(a) <= Keys(b)
    requires forall i, j :: 0 <= i < |a| && 0 <= j < |b| && a[i].key == b[j].key ==>
               SortKeys(a[i].value) == SortKeys(b[j].value)
    ensures forall f :: f in SortedValues(a) ==> f in SortedValues(b)
  {
    forall f | f in SortedValues(a) ensures f in SortedValues(b) {
      var i :| 0 <= i < |a| && SortedValues(a)[i] == f;
      MemberOf(a, i);
      assert a[i].key in Keys(b);
      var g :| g in b && g.key == a[i].key;
      var j :| 0 <= j < |b| && b[j] == g;
      assert SortedValues(b)[j] == f;
    }
  }

  /** Trees that differ in key order only are printed from the same sorted tree. */
  lemma {:induction false} SameSorts(a: Json, b: Json)
    requires Parsed(a) && Parsed(b) && Same(a, b)
    ensures SortKeys(a) == SortKeys(b)
    decreases a
  {
    match a
    case List(xs) =>
      forall i | 0 <= i < |xs| ensures SortKeys(xs[i]) == SortKeys(b.items[i]) { SameSorts(xs[i], b.items[i]); }
    case Dict(fs) =>
      var gs := b.fields;
      forall i, j | 0 <= i < |fs| && 0 <= j < |gs| && fs[i].key == gs[j].key
        ensures SortKeys(fs[i].value) == SortKeys(gs[j].value)
      {
        SameSorts(fs[i].value, gs[j].value);
      }
      SameValuesSorted(fs, gs);
      SameValuesSorted(gs, fs);
      SortFieldsInOrder(SortedValues(fs));
      SortFieldsInOrder(SortedValues(gs));
      InOrderUnique(SortFields(SortedValues(fs)), SortFields(SortedValues(gs)));
      SortKeysDict(fs);
      SortKeysDict(gs);
    case _ =>
  }

  lemma {:induction false} SortsKeepKeys(a: seq<Field>, b: seq<Field>)
    requires forall f :: f in SortedValues(a) ==> f in SortedValues(b)
    ensures Keys(a) <= Keys(b)
  {
    forall k | k in Keys(a) ensures k in Keys(b) {
      var f :| f in a && f.key == k;
      var i :| 0 <= i < |a| && a[i] == f;
      MemberOf(a, i);
      var j :| 0 <= j < |b| && SortedValues(b)[j] == SortedValues(a)[i];
      MemberOf(b, j);
    }
  }

  lemma {:induction false} SameSortedValue(fs: seq<Field>, gs: seq<Field>, i: nat, j: nat)
    requires DistinctKeys(gs) && forall f :: f in SortedValues(fs) ==> f in SortedValues(gs)
    requires i < |fs| && j < |gs| && fs[i].key == gs[j].key
    ensures SortKeys(fs[i].value) == SortKeys(gs[j].value)
  {
    MemberOf(fs, i);
    var k :| 0 <= k < |gs| && SortedValues(gs)[k] == SortedValues(fs)[i];
    assert k == j;
  }

  lemma {:induction false} SortedAlike(fs: seq<Field>, gs: seq<Field>)
    requires DistinctKeys(fs) && DistinctKeys(gs) && SortKeys(Dict(fs)) == SortKeys(Dict(gs))
    ensures forall f :: f in SortedValues(fs) <==> f in SortedValues(gs)
  {
    SortKeysDict(fs);
    SortKeysDict(gs);
    SortFieldsInOrder(SortedValues(fs));
    SortFieldsInOrder(SortedValues(gs));
  }

  lemma {:induction false} SortsSame(a: Json, b: Json)
    requires Parsed(a) && Parsed(b) && SortKeys(a) == SortKeys(b)
    ensures Same(a, b)
    decreases a, 1
  {
    match a
    case List(xs) =>
      forall i | 0 <= i < |xs| ensures Same(xs[i], b.items[i]) {
        assert SortKeys(a).items[i] == SortKeys(b).items[i];
        SortsSame(xs[i], b.items[i]);
      }
    case Dict(fs) => FieldsSortSame(fs, b.fields);
    case _ =>
  }

  lemma {:induction false} FieldsSortSame(fs: seq<Field>, gs: seq<Field>)
    requires Parsed(Dict(fs)) && Parsed(Dict(gs)) && SortKeys(Dict(fs)) == SortKeys(Dict(gs))
    ensures Same(Dict(fs), Dict(gs))
    decreases fs, 0
  {
    SortedAlike(fs, gs);
    SortsKeepKeys(fs, gs);
    SortsKeepKeys(gs, fs);
    forall i, j | 0 <= i < |fs| && 0 <= j < |gs| && fs[i].key == gs[j].key
      ensures Same(fs[i].value, gs[j].value)
    {
      SameSortedValue(fs, gs, i, j);
      SortsSame(fs[i].value, gs[j].value);
    }
  }

  // ------------------------------------------------------------------ sanitize

  lemma {:induction false} SanitizeIdempotent(j: Json)
    ensures Sanitize(Sanitize(j)) == Sanitize(j)
    decreases j
  {
    match j
    case List(xs) =>
      forall i | 0 <= i < |xs| ensures Sanitize(Sanitize(xs[i])) == Sanitize(xs[i]) {
        SanitizeIdempotent(xs[i]);
      }
    case Dict(fs) =>
      forall i | 0 <= i < |fs| ensures Sanitize(Sanitize(fs[i].value)) == Sanitize(fs[i].value) {
        SanitizeIdempotent(fs[i].value);
      }
    case _ =>
  }

  lemma {:induction false} SanitizeKeepsParsed(j: Json)
    requires Parsed(j)
    ensures Parsed(Sanitize(j)) && Printable(Sanitize(j))
    decreases j
  {
    match j
    case List(xs) =>
      forall i | 0 <= i < |xs| ensures Parsed(Sanitize(xs[i])) && Printable(Sanitize(xs[i])) {
        SanitizeKeepsParsed(xs[i]);
      }
    case Dict(fs) =>
      forall i | 0 <= i < |fs| ensures Parsed(Sanitize(fs[i].value)) && Printable(Sanitize(fs[i].value)) {
        SanitizeKeepsParsed(fs[i].value);
      }
    case _ =>
  }

  lemma {:induction false} SortKeepsPrintable(j: Json)
    requires Parsed(j) && Printable(j)
    ensures Printable(SortKeys(j)) && Parsed(SortKeys(j))
    decreases j
  {
    match j
    case List(xs) =>
      forall i | 0 <= i < |xs| ensures Printable(SortKeys(xs[i])) && Parsed(SortKeys(xs[i])) {
        SortKeepsPrintable(xs[i]);
      }
    case Dict(fs) =>
      forall i | 0 <= i < |fs| ensures Printable(SortKeys(fs[i].value)) && Parsed(SortKeys(fs[i].value)) {
        SortKeepsPrintable(fs[i].value);
      }
      SortKeysDict(fs);
      SortFieldsInOrder(SortedValues(fs));
      SortedIsProper(SortedValues(fs), SortFields(SortedValues(fs)));
    case _ =>
  }

  lemma {:induction false} SortedIsProper(fs: seq<Field>, r: seq<Field>)
    requires InOrder(r) && forall f :: f in r <==> f in fs
    requires forall i :: 0 <= i < |fs| ==> Printable(fs[i].value) && Parsed(fs[i].value)
    ensures DistinctKeys(r) && forall i :: 0 <= i < |r| ==> Printable(r[i].value) && Parsed(r[i].value)
  {
    forall i, j | 0 <= i < j < |r| ensures r[i].key != r[j].key { PrecedesTotal(r[i].key, r[i].key); }
    forall i | 0 <= i < |r| ensures Printable(r[i].value) && Parsed(r[i].value) { assert r[i] in fs; }
  }

  /** The encoder's text is equal exactly for trees that are equal up to key order, once
      NaN and infinities read as null. */
  lemma {:induction false} DumpsEqualIff(a: Json, b: Json)
    requires Parsed(a) && Parsed(b)
    ensures StableDumps(a) == StableDumps(b) <==> Same(Sanitize(a), Sanitize(b))
  {
    var u, v := Sanitize(a), Sanitize(b);
    SanitizeKeepsParsed(a);
    SanitizeKeepsParsed(b);
    if Same(u, v) { SameSorts(u, v); }
    if StableDumps(a) == StableDumps(b) {
      SortKeepsPrintable(u);
      SortKeepsPrintable(v);
      PrintInjective(SortKeys(u), SortKeys(v));
      SortsSame(u, v);
    }
  }

  // ------------------------------------------------------------------ strip

  lemma {:induction false} StripIdempotent(j: Json)
    ensures Strip(Strip(j)) == Strip(j)
    decreases j, 1
  {
    if j.Dict? { StripFieldsIdempotent(j.fields); }
  }

  lemma {:induction false} StripFieldsIdempotent(fs: seq<Field>)
    ensures StripFields(StripFields(fs)) == StripFields(fs)
    decreases fs, 0
  {
    if fs == [] {
    } else {
      StripFieldsIdempotent(fs[1..]);
      if fs[0].key !in VOLATILE_FIELDS {
        StripIdempotent(fs[0].value);
        var f := Field(fs[0].key, Strip(fs[0].value));
        assert ([f] + StripFields(fs[1..]))[1..] == StripFields(fs[1..]);
      }
    }
  }

  function SanitizeFields(fs: seq<Field>): seq<Field> {
    seq(|fs|, i requires 0 <= i < |fs| => Field(fs[i].key, Sanitize(fs[i].value)))
  }

  /** Sanitizing and stripping commute. */
  lemma {:induction false} SanitizeStripCommute(j: Json)
    ensures Sanitize(Strip(j)) == Strip(Sanitize(j))
    decreases j, 1
  {
    if j.Dict? {
      FieldsCommute(j.fields);
      assert Sanitize(Dict(j.fields)) == Dict(SanitizeFields(j.fields));
      assert Sanitize(Dict(StripFields(j.fields))) == Dict(SanitizeFields(StripFields(j.fields)));
    }
  }

  lemma {:induction false} FieldsCommute(fs: seq<Field>)
    ensures SanitizeFields(StripFields(fs)) == StripFields(SanitizeFields(fs))
    decreases fs, 0
  {
    if fs == [] {
    } else {
      FieldsCommute(fs[1..]);
      assert SanitizeFields(fs)[1..] == SanitizeFields(fs[1..]);
      if fs[0].key !in VOLATILE_FIELDS {
        SanitizeStripCommute(fs[0].value);
        var f := Field(fs[0].key, Strip(fs[0].value));
        assert SanitizeFields([f] + StripFields(fs[1..]))
            == [Field(f.key, Sanitize(f.value))] + SanitizeFields(StripFields(fs[1..]));
      }
    }
  }

  function FieldAt(fs: seq<Field>, key: string): Option<Json> {
    if fs == [] then None
    else if fs[0].key == key then Some(fs[0].value)
    else FieldAt(fs[1..], key)
  }

  datatype Step = Key(key: string) | Index(i: nat)

  /** The value at a path of dictionary keys and list positions. */
  function At(j: Json, path: seq<Step>): Option<Json>
    decreases |path|
  {
    if path == [] then Some(j)
    else match path[0]
      case Key(k) =>
        if j.Dict? && FieldAt(j.fields, k).Some? then At(FieldAt(j.fields, k).value, path[1..]) else None
      case Index(i) =>
        if j.List? && i < |j.items| then At(j.items[i], path[1..]) else None
  }

  lemma {:induction false} StripFieldAt(fs: seq<Field>, key: string)
    ensures FieldAt(StripFields(fs), key)
         == if key in VOLATILE_FIELDS || FieldAt(fs, key).None? then None else Some(Strip(FieldAt(fs, key).value))
  {
    if fs == [] {
    } else {
      StripFieldAt(fs[1..], key);
      if fs[0].key !in VOLATILE_FIELDS {
        var f := Field(fs[0].key, Strip(fs[0].value));
        assert ([f] + StripFields(fs[1..]))[1..] == StripFields(fs[1..]);
      }
    }
  }

  /** A volatile key comes before the path enters any list. */
  predicate Volatile(path: seq<Step>)
    decreases |path|
  {
    path != [] && path[0].Key? && (path[0].key in VOLATILE_FIELDS || Volatile(path[1..]))
  }

  predicate EntersList(path: seq<Step>) { exists i :: 0 <= i < |path| && path[i].Index? }

  /** Stripping removes exactly what lies under a volatile key that is reached through
      dictionaries; all else stays at its path, and lists stay as they are. */
  lemma {:induction false} StripByPath(j: Json, path: seq<Step>)
    ensures Volatile(path) ==> At(Strip(j), path) == None
    ensures !Volatile(path) && At(j, path) == None ==> At(Strip(j), path) == None
    ensures !Volatile(path) && At(j, path).Some? && EntersList(path) ==> At(Strip(j), path) == At(j, path)
    ensures !Volatile(path) && At(j, path).Some? && !EntersList(path) ==>
              At(Strip(j), path) == Some(Strip(At(j, path).value))
    decreases |path|
  {
    if path == [] {
    } else {
      EntersTail(path);
      if path[0].Key? && j.Dict? {
        StripFieldAt(j.fields, path[0].key);
        if FieldAt(j.fields, path[0].key).Some? && path[0].key !in VOLATILE_FIELDS {
          StripByPath(FieldAt(j.fields, path[0].key).value, path[1..]);
        }
      }
    }
  }

  lemma {:induction false} EntersTail(path: seq<Step>)
    requires path != []
    ensures EntersList(path) <==> path[0].Index? || EntersList(path[1..])
  {
    if EntersList(path) && !path[0].Index? {
      var i :| 0 <= i < |path| && path[i].Index?;
      assert path[1..][i - 1].Index?;
    }
    if EntersList(path[1..]) {
      var i :| 0 <= i < |path[1..]| && path[1..][i].Index?;
      assert path[i + 1].Index?;
    }
  }

  lemma {:induction false} SanitizeFieldAt(fs: seq<Field>, key: string)
    ensures FieldAt(SanitizeFields(fs), key)
         == if FieldAt(fs, key).None? then None else Some(Sanitize(FieldAt(fs, key).value))
  {
    if fs == [] {
    } else {
      SanitizeFieldAt(fs[1..], key);
      assert SanitizeFields(fs)[1..] == SanitizeFields(fs[1..]);
    }
  }

  /** Sanitizing keeps every path, inside lists too, and changes what is found there only
      where it is NaN or infinite: that reads as null. */
  lemma {:induction false} SanitizeByPath(j: Json, path: seq<Step>)
    ensures At(j, path).None? ==> At(Sanitize(j), path).None?
    ensures At(j, path).Some? ==>
              var v := At(j, path).value;
              && At(Sanitize(j), path).Some? && At(Sanitize(j), path).value != NotFinite
              && (v == NotFinite ==> At(Sanitize(j), path) == Some(Null))
              && (!v.NotFinite? && !v.List? && !v.Dict? ==> At(Sanitize(j), path) == Some(v))
    decreases |path|
  {
    if path == [] {
    } else {
      match path[0]
      case Key(k) =>
        if j.Dict? {
          assert Sanitize(j) == Dict(SanitizeFields(j.fields));
          SanitizeFieldAt(j.fields, k);
          if FieldAt(j.fields, k).Some? { SanitizeByPath(FieldAt(j.fields, k).value, path[1..]); }
        }
      case Index(i) =>
        if j.List? && i < |j.items| {
          assert Sanitize(j).items[i] == Sanitize(j.items[i]);
          SanitizeByPath(j.items[i], path[1..]);
        }
    }
  }

  lemma {:induction false} StripKeepsParsed(j: Json)
    requires Parsed(j)
    ensures Parsed(Strip(j))
    decreases j, 1
  {
    if j.Dict? { StripFieldsKeepParsed(j.fields); }
  }

  /** Proper fields, one by one. */
  ghost predicate ParsedFields(fs: seq<Field>) {
    DistinctKeys(fs) && forall i :: 0 <= i < |fs| ==> Parsed(fs[i].value)
  }

  lemma {:induction false} PrependParsed(f: Field, rest: seq<Field>)
    requires ParsedFields(rest) && Parsed(f.value) && f.key !in Keys(rest)
    ensures ParsedFields([f] + rest) && Keys([f] + rest) == {f.key} + Keys(rest)
  {
    forall i | 0 <= i < |rest| ensures rest[i].key != f.key {
      assert rest[i] in rest && rest[i].key in Keys(rest);
    }
  }

  lemma {:induction false} TailParsed(fs: seq<Field>)
    requires fs != [] && ParsedFields(fs)
    ensures ParsedFields(fs[1..]) && fs[0].key !in Keys(fs[1..]) && Keys(fs[1..]) <= Keys(fs)
  {
    assert fs == [fs[0]] + fs[1..];
  }

  lemma {:induction false} StripFieldsKeepParsed(fs: seq<Field>)
    requires ParsedFields(fs)
    ensures ParsedFields(StripFields(fs)) && Keys(StripFields(fs)) <= Keys(fs)
    decreases fs, 0
  {
    if fs == [] {
    } else {
      TailParsed(fs);
      StripFieldsKeepParsed(fs[1..]);
      if fs[0].key !in VOLATILE_FIELDS {
        StripKeepsParsed(fs[0].value);
        assert fs[0] in fs;
        PrependParsed(Field(fs[0].key, Strip(fs[0].value)), StripFields(fs[1..]));
      }
    }
  }

  // ------------------------------------------------------------------ the canonical form

  /** The tree whose text is the normal form. */
  function Canonical(j: Json): Json { SortKeys(Sanitize(Strip(j))) }

  /** Two parsed contexts normalize to the same text exactly when, without volatile fields
      and with NaN read as null, they are equal up to key order. */
  lemma {:induction false} NormalFormsEqualIff(a: Json, b: Json)
    requires Parsed(a) && Parsed(b)
    ensures Print(Canonical(a)) == Print(Canonical(b)) <==> Same(Sanitize(Strip(a)), Sanitize(Strip(b)))
  {
    StripKeepsParsed(a);
    StripKeepsParsed(b);
    DumpsEqualIff(Strip(a), Strip(b));
  }

  ghost predicate NoVolatile(j: Json)
    decreases j
  {
    j.Dict? ==> forall i :: 0 <= i < |j.fields| ==> j.fields[i].key !in VOLATILE_FIELDS && NoVolatile(j.fields[i].value)
  }

  lemma {:induction false} StripLeavesNone(j: Json)
    ensures NoVolatile(Strip(j))
    decreases j, 1
  {
    if j.Dict? { StripFieldsLeaveNone(j.fields); }
  }

  lemma {:induction false} StripFieldsLeaveNone(fs: seq<Field>)
    ensures forall i :: 0 <= i < |StripFields(fs)| ==>
              StripFields(fs)[i].key !in VOLATILE_FIELDS && NoVolatile(StripFields(fs)[i].value)
    decreases fs, 0
  {
    if fs == [] {
    } else {
      StripFieldsLeaveNone(fs[1..]);
      StripLeavesNone(fs[0].value);
    }
  }

  lemma {:induction false} NothingToStrip(j: Json)
    requires NoVolatile(j)
    ensures Strip(j) == j
    decreases j, 1
  {
    if j.Dict? { NoFieldsToStrip(j.fields); }
  }

  lemma {:induction false} NoFieldsToStrip(fs: seq<Field>)
    requires forall i :: 0 <= i < |fs| ==> fs[i].key !in VOLATILE_FIELDS && NoVolatile(fs[i].value)
    ensures StripFields(fs) == fs
    decreases fs, 0
  {
    if fs == [] {
    } else {
      NothingToStrip(fs[0].value);
      NoFieldsToStrip(fs[1..]);
      assert fs == [fs[0]] + fs[1..];
    }
  }

  lemma {:induction false} NothingToSanitize(j: Json)
    requires Printable(j)
    ensures Sanitize(j) == j
    decreases j
  {
    match j
    case List(xs) => forall i | 0 <= i < |xs| ensures Sanitize(xs[i]) == xs[i] { NothingToSanitize(xs[i]); }
    case Dict(fs) =>
      forall i | 0 <= i < |fs| ensures Sanitize(fs[i].value) == fs[i].value { NothingToSanitize(fs[i].value); }
    case _ =>
  }

  lemma {:induction false} SanitizeKeepsNoVolatile(j: Json)
    requires NoVolatile(j)
    ensures NoVolatile(Sanitize(j))
    decreases j
  {
    if j.Dict? {
      forall i | 0 <= i < |j.fields| ensures NoVolatile(Sanitize(j.fields[i].value)) {
        SanitizeKeepsNoVolatile(j.fields[i].value);
      }
    }
  }

  lemma {:induction false} SortKeepsNoVolatile(j: Json)
    requires Parsed(j) && NoVolatile(j)
    ensures NoVolatile(SortKeys(j))
    decreases j
  {
    if j.Dict? {
      var fs := j.fields;
      forall i | 0 <= i < |fs| ensures NoVolatile(SortKeys(fs[i].value)) { SortKeepsNoVolatile(fs[i].value); }
      SortKeysDict(fs);
      SortFieldsInOrder(SortedValues(fs));
      var r := SortFields(SortedValues(fs));
      forall i | 0 <= i < |r| ensures r[i].key !in VOLATILE_FIELDS && NoVolatile(r[i].value) {
        assert r[i] in SortedValues(fs);
      }
    }
  }

  /** Sorting changes nothing but the order of keys. */
  lemma {:induction false} SortKeepsSame(j: Json)
    requires Parsed(j)
    ensures Same(SortKeys(j), j)
    decreases j
  {
    match j
    case List(xs) => forall i | 0 <= i < |xs| ensures Same(SortKeys(xs[i]), xs[i]) { SortKeepsSame(xs[i]); }
    case Dict(fs) =>
      forall i | 0 <= i < |fs| ensures Same(SortKeys(fs[i].value), fs[i].value) { SortKeepsSame(fs[i].value); }
      SortKeysDict(fs);
      SortFieldsInOrder(SortedValues(fs));
      SortedSameFields(fs, SortFields(SortedValues(fs)));
    case _ =>
  }

  lemma {:induction false} SortedSameFields(fs: seq<Field>, r: seq<Field>)
    requires DistinctKeys(fs) && forall f :: f in r <==> f in SortedValues(fs)
    requires forall i :: 0 <= i < |fs| ==> Same(SortKeys(fs[i].value), fs[i].value)
    ensures Keys(r) == Keys(fs)
    ensures forall i, j :: 0 <= i < |r| && 0 <= j < |fs| && r[i].key == fs[j].key ==> Same(r[i].value, fs[j].value)
  {
    forall k | k in Keys(fs) ensures k in Keys(r) {
      var f :| f in fs && f.key == k;
      var i :| 0 <= i < |fs| && fs[i] == f;
      MemberOf(fs, i);
      assert SortedValues(fs)[i] in r;
    }
    forall i | 0 <= i < |r| ensures r[i].key in Keys(fs) {
      assert r[i] in SortedValues(fs);
      var k :| 0 <= k < |fs| && SortedValues(fs)[k] == r[i];
      MemberOf(fs, k);
    }
    forall i, j | 0 <= i < |r| && 0 <= j < |fs| && r[i].key == fs[j].key ensures Same(r[i].value, fs[j].value) {
      assert r[i] in SortedValues(fs);
      var k :| 0 <= k < |fs| && SortedValues(fs)[k] == r[i];
      assert k == j;
    }
  }

  /** Normalizing a canonical tree changes nothing. */
  lemma {:induction false} CanonicalIsFixed(j: Json)
    requires Parsed(j)
    ensures var c := Canonical(j); Parsed(c) && Printable(c) && SortKeys(c) == c && Canonical(c) == c
  {
    StripKeepsParsed(j);
    StripLeavesNone(j);
    var s := Sanitize(Strip(j));
    SanitizeKeepsParsed(Strip(j));
    SanitizeKeepsNoVolatile(Strip(j));
    SortKeepsPrintable(s);
    SortKeepsNoVolatile(s);
    SortKeepsSame(s);
    SameSorts(SortKeys(s), s);
    NothingToStrip(SortKeys(s));
    NothingToSanitize(SortKeys(s));
  }

  // ------------------------------------------------------------------ the reader

  /** Numbers as the encoder prints them (`1.5`, never `1.50`), nested at most `depth` deep. */
  ghost predicate Readable(j: Json, repr: string -> bool, depth: nat)
    decreases j
  {
    match j
    case Number(text) => repr(text)
    case List(items) => depth > 0 && forall i :: 0 <= i < |items| ==> Readable(items[i], repr, depth - 1)
    case Dict(fs) => depth > 0 && forall i :: 0 <= i < |fs| ==> Readable(fs[i].value, repr, depth - 1)
    case _ => true
  }

  /** What `json.loads` returns has distinct keys and numbers that print as numbers. */
  ghost predicate ReturnsParsed(loads: string -> Option<Json>) {
    forall raw :: loads(raw).Some? ==> Parsed(loads(raw).value)
  }

  /** It returns readable trees only, and reads those back from what the encoder prints. Of
      any other text, such as `-` or `1.50`, nothing is asked. */
  ghost predicate ReadsBack(loads: string -> Option<Json>, repr: string -> bool, depth: nat) {
    && (forall raw :: loads(raw).Some? ==> Readable(loads(raw).value, repr, depth))
    && (forall j :: Parsed(j) && Printable(j) && Readable(j, repr, depth) && SortKeys(j) == j ==>
          loads(Print(j)) == Some(j))
  }

  lemma {:induction false} StripKeepsReadable(j: Json, repr: string -> bool, depth: nat)
    requires Readable(j, repr, depth)
    ensures Readable(Strip(j), repr, depth)
    decreases j, 1
  {
    if j.Dict? { StripFieldsKeepReadable(j.fields, repr, depth - 1); }
  }

  lemma {:induction false} StripFieldsKeepReadable(fs: seq<Field>, repr: string -> bool, depth: nat)
    requires forall i :: 0 <= i < |fs| ==> Readable(fs[i].value, repr, depth)
    ensures forall i :: 0 <= i < |StripFields(fs)| ==> Readable(StripFields(fs)[i].value, repr, depth)
    decreases fs, 0
  {
    if fs == [] {
    } else {
      StripKeepsReadable(fs[0].value, repr, depth);
      StripFieldsKeepReadable(fs[1..], repr, depth);
    }
  }

  lemma {:induction false} SanitizeKeepsReadable(j: Json, repr: string -> bool, depth: nat)
    requires Readable(j, repr, depth)
    ensures Readable(Sanitize(j), repr, depth)
    decreases j
  {
    match j
    case List(xs) =>
      forall i | 0 <= i < |xs| ensures Readable(Sanitize(xs[i]), repr, depth - 1) {
        SanitizeKeepsReadable(xs[i], repr, depth - 1);
      }
    case Dict(fs) =>
      forall i | 0 <= i < |fs| ensures Readable(Sanitize(fs[i].value), repr, depth - 1) {
        SanitizeKeepsReadable(fs[i].value, repr, depth - 1);
      }
    case _ =>
  }

  lemma {:induction false} SortKeepsReadable(j: Json, repr: string -> bool, depth: nat)
    requires Parsed(j) && Readable(j, repr, depth)
    ensures Readable(SortKeys(j), repr, depth)
    decreases j
  {
    match j
    case List(xs) =>
      forall i | 0 <= i < |xs| ensures Readable(SortKeys(xs[i]), repr, depth - 1) {
        SortKeepsReadable(xs[i], repr, depth - 1);
      }
    case Dict(fs) =>
      var sorted := SortedValues(fs);
      forall i | 0 <= i < |fs| ensures Readable(sorted[i].value, repr, depth - 1) {
        SortKeepsReadable(fs[i].value, repr, depth - 1);
      }
      SortKeysDict(fs);
      SortFieldsInOrder(sorted);
      var r := SortFields(sorted);
      forall i | 0 <= i < |r| ensures Readable(r[i].value, repr, depth - 1) { assert r[i] in sorted; }
    case _ =>
  }

  /** Normalizing twice is normalizing once, on every text. */
  lemma {:induction false} NormalizeIdempotent(
      loads: string -> Option<Json>, repr: string -> bool, depth: nat, raw: string)
    requires ReturnsParsed(loads) && ReadsBack(loads, repr, depth)
    ensures NormalizeContextJson(loads, NormalizeContextJson(loads, raw)) == NormalizeContextJson(loads, raw)
  {
    if loads(raw).Some? {
      var j := loads(raw).value;
      CanonicalIsFixed(j);
      StripKeepsParsed(j);
      SanitizeKeepsParsed(Strip(j));
      StripKeepsReadable(j, repr, depth);
      SanitizeKeepsReadable(Strip(j), repr, depth);
      SortKeepsReadable(Sanitize(Strip(j)), repr, depth);
      assert NormalizeContextJson(loads, raw) == Print(Canonical(j));
      assert loads(Print(Canonical(j))) == Some(Canonical(j));
    }
  }

  /** Two texts that parse hash alike exactly when their contexts agree up to key order,
      volatile fields and NaN. */
  lemma {:induction false} NormalizedTextsEqualIff(loads: string -> Option<Json>, r: string, s: string)
    requires ReturnsParsed(loads) && loads(r).Some? && loads(s).Some?
    ensures NormalizeContextJson(loads, r) == NormalizeContextJson(loads, s)
        <==> Same(Sanitize(Strip(loads(r).value)), Sanitize(Strip(loads(s).value)))
  {
    NormalFormsEqualIff(loads(r).value, loads(s).value);
  }

  // ------------------------------------------------------------------ the text itself

  /** Pieces one after the other, with a comma and a blank between them. */
  function Joined(pieces: seq<string>): string {
    if pieces == [] then ""
    else if |pieces| == 1 then pieces[0]
    else pieces[0] + ", " + Joined(pieces[1..])
  }

  function ItemTexts(items: seq<Json>): (r: seq<string>)
    ensures |r| == |items| && forall i :: 0 <= i < |items| ==> r[i] == Print(items[i])
  {
    seq(|items|, i requires 0 <= i < |items| => Print(items[i]))
  }

  /** A field is its quoted key, a colon, a blank and its value. */
  function FieldTexts(fs: seq<Field>): (r: seq<string>)
    ensures |r| == |fs| && forall i :: 0 <= i < |fs| ==> r[i] == Print(Text(fs[i].key)) + ": " + Print(fs[i].value)
  {
    seq(|fs|, i requires 0 <= i < |fs| => Print(Text(fs[i].key)) + ": " + Print(fs[i].value))
  }

  lemma {:induction false} ItemsAreJoined(items: seq<Json>)
    ensures PrintItems(items) == Joined(ItemTexts(items))
  {
    if items == [] {
    } else {
      ItemsAreJoined(items[1..]);
      assert ItemTexts(items)[1..] == ItemTexts(items[1..]);
      Associates(Print(items[0]), ", ", PrintItems(items[1..]));
      assert |items| == 1 ==> PrintItems(items) == Print(items[0]) + "" == Print(items[0]);
    }
  }

  lemma {:induction false} FieldsAreJoined(fs: seq<Field>)
    ensures PrintFields(fs) == Joined(FieldTexts(fs))
  {
    if fs == [] {
    } else {
      FieldsAreJoined(fs[1..]);
      assert FieldTexts(fs)[1..] == FieldTexts(fs[1..]);
      var first := FieldTexts(fs)[0];
      Associates(first, ", ", PrintFields(fs[1..]));
      assert |fs| == 1 ==> PrintFields(fs) == first + "" == first;
    }
  }

  /** The text of every tree: the literals, numbers as they are, and lists and dictionaries as
      their joined pieces between brackets and braces. */
  lemma {:induction false} TextMeans(j: Json)
    ensures match j
            case Null => Print(j) == "null"
            case Boolean(b) => Print(j) == (if b then "true" else "false")
            case Number(text) => Print(j) == text
            case NotFinite => Print(Sanitize(j)) == "null"
            case Text(s) => |Print(j)| >= 2 && Print(j)[0] == '\"' == Print(j)[|Print(j)| - 1]
            case List(items) => Print(j) == "[" + Joined(ItemTexts(items)) + "]"
            case Dict(fs) => Print(j) == "{" + Joined(FieldTexts(fs)) + "}"
  {
    match j
    case List(items) => ItemsAreJoined(items);
    case Dict(fs) => FieldsAreJoined(fs);
    case _ =>
  }

  /** Alphabetical order by code point: at the first difference the smaller character, or the
      end of the word, comes first. */
  ghost predicate Alphabetical(a: string, b: string) {
    exists p: nat :: p <= |a| && p < |b| && a[..p] == b[..p] && (p == |a| || a[p] < b[p])
  }

  lemma {:induction false} PrecedesIsAlphabetical(a: string, b: string)
    requires Precedes(a, b)
    ensures Alphabetical(a, b)
  {
    if a == "" || a[0] < b[0] {
      assert a[..0] == b[..0];
    } else {
      PrecedesIsAlphabetical(a[1..], b[1..]);
      var p: nat :| p <= |a[1..]| && p < |b[1..]| && a[1..][..p] == b[1..][..p] && (p == |a[1..]| || a[1..][p] < b[1..][p]);
      assert a[..p + 1] == [a[0]] + a[1..][..p] && b[..p + 1] == [b[0]] + b[1..][..p];
    }
  }

  /** The keys of a printed dictionary are in alphabetical order. */
  lemma {:induction false} KeysAscend(fs: seq<Field>, i: nat, j: nat)
    requires DistinctKeys(fs) && i < j < |SortKeys(Dict(fs)).fields|
    ensures Alphabetical(SortKeys(Dict(fs)).fields[i].key, SortKeys(Dict(fs)).fields[j].key)
  {
    SortKeysDict(fs);
    SortFieldsInOrder(SortedValues(fs));
    PrecedesIsAlphabetical(SortKeys(Dict(fs)).fields[i].key, SortKeys(Dict(fs)).fields[j].key);
  }

  /** The fields that do not enter a context's text. */
  lemma {:induction false} VolatileNames(key: string)
    ensures Strip(Dict([Field(key, Null)])) == Dict([])
       <==> key in {"timestamp", "last_run", "cached_at", "elapsed_ms", "last_triggered", "updated_at", "last_recompute"}
  {
    StripOne(key, Null);
  }

  function Stamped(s: string): Json { Dict([Field("timestamp", Text(s))]) }

  function InList(key: string, s: string): Json { Dict([Field(key, List([Stamped(s)]))]) }

  function InDict(key: string, s: string): Json { Dict([Field(key, Stamped(s))]) }

  lemma {:induction false} StampedIsClean(key: string, s: string)
    ensures Parsed(Stamped(s)) && Printable(Stamped(s))
    ensures Parsed(InList(key, s)) && Printable(InList(key, s)) && Parsed(InDict(key, s))
  {
    var f := Field("timestamp", Text(s));
    assert Parsed(f.value) && Printable(f.value);
    assert Parsed(Stamped(s)) && Printable(Stamped(s)) by { assert [f][0] == f; }
    var items := List([Stamped(s)]);
    assert Parsed(items) && Printable(items) by { assert [Stamped(s)][0] == Stamped(s); }
    assert Parsed(InList(key, s)) && Printable(InList(key, s)) by {
      assert [Field(key, items)][0] == Field(key, items);
    }
    assert Parsed(InDict(key, s)) by { assert [Field(key, Stamped(s))][0] == Field(key, Stamped(s)); }
  }

  lemma {:induction false} StampedDiffer(key: string, s: string, t: string)
    requires s != t
    ensures !Same(InList(key, s), InList(key, t))
  {
    var f, g := Field("timestamp", Text(s)), Field("timestamp", Text(t));
    assert !Same(f.value, g.value);
    assert !Same(Stamped(s), Stamped(t)) by { assert [f][0].key == [g][0].key; }
    var x, y := List([Stamped(s)]), List([Stamped(t)]);
    assert !Same(x, y) by { assert x.items[0] == Stamped(s) && y.items[0] == Stamped(t); }
    assert [Field(key, x)][0].key == [Field(key, y)][0].key;
  }

  lemma {:induction false} StripOne(key: string, v: Json)
    ensures Strip(Dict([Field(key, v)])) == Dict(if key in VOLATILE_FIELDS then [] else [Field(key, Strip(v))])
  {
    assert [Field(key, v)][1..] == [];
    assert StripFields([]) == [];
  }

  /** A volatile field inside a list is not volatile: contexts that differ in it only still
      get different texts, while the same field under dictionaries makes no difference. */
  lemma {:induction false} VolatileInListSurvives(key: string, s: string, t: string)
    requires s != t && key !in VOLATILE_FIELDS
    ensures Print(Canonical(InList(key, s))) != Print(Canonical(InList(key, t)))
    ensures Print(Canonical(InDict(key, s))) == Print(Canonical(InDict(key, t)))
  {
    StampedIsClean(key, s);
    StampedIsClean(key, t);
    StripOne(key, List([Stamped(s)]));
    StripOne(key, List([Stamped(t)]));
    NothingToSanitize(InList(key, s));
    NothingToSanitize(InList(key, t));
    NormalFormsEqualIff(InList(key, s), InList(key, t));
    StampedDiffer(key, s, t);
    StripOne("timestamp", Text(s));
    StripOne("timestamp", Text(t));
    StripOne(key, Stamped(s));
    StripOne(key, Stamped(t));
  }

  /** Value of a lower-case hexadecimal digit; 16 for any other character. */
  function DigitValue(d: char): nat {
    if '0' <= d <= '9' then d as nat - '0' as nat
    else if 'a' <= d <= 'f' then d as nat - 'a' as nat + 10
    else 16
  }

  /** The four characters of an escape are the lower-case hexadecimal digits of the code. */
  lemma {:induction false} HexMeans(n: nat)
    requires n < 0x10000
    ensures var h := Hex4(n);
            && |h| == 4 && (forall i :: 0 <= i < 4 ==> DigitValue(h[i]) < 16)
            && n == 0x1000 * DigitValue(h[0]) + 0x100 * DigitValue(h[1]) + 0x10 * DigitValue(h[2]) + DigitValue(h[3])
  {
    var p := n / 16;
    var q := p / 16;
    DigitOf(q / 16);
    DigitOf(q % 16);
    DigitOf(p % 16);
    DigitOf(n % 16);
  }

  lemma {:induction false} DigitOf(n: nat)
    requires n < 16
    ensures DigitValue(HexDigit(n)) == n
  {
  }

  /** How a character is escaped: quote and backslash behind a backslash, five controls by
      their letter, printable ASCII as it is, any other character by its UTF-16 units. */
  lemma {:induction false} EscapeMeans(c: char)
    ensures Escape('\"') == "\\\"" && Escape('\\') == "\\\\" && Escape('\n') == "\\n"
    ensures Escape('\t') == "\\t" && Escape('\r') == "\\r"
    ensures Escape(8 as char) == "\\b" && Escape(12 as char) == "\\f"
    ensures ' ' <= c <= '~' && c != '\"' && c != '\\' ==> Escape(c) == [c]
    ensures (c < ' ' && c as int !in {8, 9, 10, 12, 13}) || ('~' < c && c as int < 0x10000) ==>
              Escape(c) == "\\u" + Hex4(c as int)
    ensures c as int >= 0x10000 ==>
              exists high, low :: 0xD800 <= high < 0xDC00 <= low < 0xE000
                && c as int == 0x10000 + 0x400 * (high - 0xD800) + (low - 0xDC00)
                && Escape(c) == "\\u" + Hex4(high) + "\\u" + Hex4(low)
  {
    if c as int >= 0x10000 {
      var m := c as int - 0x10000;
      var high, low := 0xD800 + m / 0x400, 0xDC00 + m % 0x400;
      assert Escape(c) == "\\u" + Hex4(high) + "\\u" + Hex4(low);
    }
  }
}
