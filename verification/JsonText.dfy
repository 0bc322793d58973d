/** The printed form of a tree determines the tree. */
module JsonText {
  import opened ContextCanon

  // ------------------------------------------------------------------ strings

  lemma {:induction false} HexDigitInjective(m: nat, n: nat)
    requires m < 16 && n < 16 && HexDigit(m) == HexDigit(n)
    ensures m == n
  {
    assert HexDigit(m) as int == HexDigit(n) as int;
  }

  lemma {:induction false} Hex4Injective(m: nat, n: nat)
    requires m < 0x10000 && n < 0x10000 && Hex4(m) == Hex4(n)
    ensures m == n
  {
    var g, h := Hex4(m), Hex4(n);
    assert g[0] == h[0] && g[1] == h[1] && g[2] == h[2] && g[3] == h[3];
    var p, q := m / 16, n / 16;
    HexDigitInjective(p / 16 / 16, q / 16 / 16);
    HexDigitInjective(p / 16 % 16, q / 16 % 16);
    HexDigitInjective(p % 16, q % 16);
    HexDigitInjective(m % 16, n % 16);
  }

  lemma {:induction false} Associates(a: string, b: string, c: string)
    ensures (a + b) + c == a + (b + c)
  {
  }

  lemma {:induction false} Tail(a: string, b: string)
    ensures (a + b)[|a|..] == b
    ensures a != "" ==> (a + b)[0] == a[0]
  {
  }

  predicate IsPlain(c: char) { 32 <= Code(c) <= 126 && c != QUOTE && c != BACKSLASH }

  predicate IsShort(c: char) { c == QUOTE || c == BACKSLASH || Code(c) in {8, 9, 10, 12, 13} }

  /** The letter after the backslash in a two-character escape. */
  function Letter(c: char): char
    requires IsShort(c)
  {
    var n := Code(c);
    if c == QUOTE || c == BACKSLASH then c
    else if n == 8 then 'b' else if n == 9 then 't' else if n == 10 then 'n' else if n == 12 then 'f' else 'r'
  }

  /** The first code unit of a `\u` escape. */
  function Unit(c: char): (u: nat)
    ensures u < 0x10000
    ensures Code(c) >= 0x10000 <==> 0xD800 <= u < 0xDC00
  {
    if Code(c) < 0x10000 then Code(c) else 0xD800 + (Code(c) - 0x10000) / 0x400
  }

  function Rest(c: char): string {
    if Code(c) < 0x10000 then "" else [BACKSLASH, 'u'] + Hex4(0xDC00 + (Code(c) - 0x10000) % 0x400)
  }

  lemma {:induction false} EscapeForm(c: char)
    ensures IsPlain(c) ==> Escape(c) == [c]
    ensures IsShort(c) ==> !IsPlain(c) && Escape(c) == [BACKSLASH, Letter(c)] && Letter(c) != 'u'
    ensures !IsPlain(c) && !IsShort(c) ==> Escape(c) == [BACKSLASH, 'u'] + Hex4(Unit(c)) + Rest(c)
    ensures Escape(c) != "" && Escape(c)[0] != QUOTE
  {
    if !IsPlain(c) && !IsShort(c) && Code(c) < 0x10000 {
      assert Escape(c) == [BACKSLASH, 'u'] + Hex4(Unit(c)) + "";
    }
  }

  /** The second code unit, for characters beyond the first plane. */
  function Low(c: char): nat { 0xDC00 + (Code(c) - 0x10000) % 0x400 }

  lemma {:induction false} SlicesOfLong(head: string, h: string, rest: string, x: string)
    requires |head| == 2 && |h| == 4
    ensures (head + h + rest + x)[2..6] == h
    ensures |rest| == 6 ==> (head + h + rest + x)[8..12] == rest[2..]
  {
  }

  lemma {:induction false} UnitsOf(c: char, x: string)
    requires !IsPlain(c) && !IsShort(c)
    ensures |Escape(c) + x| >= 6 && (Escape(c) + x)[2..6] == Hex4(Unit(c))
    ensures Code(c) >= 0x10000 ==> |Escape(c) + x| >= 12 && (Escape(c) + x)[8..12] == Hex4(Low(c))
  {
    EscapeForm(c);
    SlicesOfLong([BACKSLASH, 'u'], Hex4(Unit(c)), Rest(c), x);
  }

  lemma {:induction false} UnitsDecide(m: nat, n: nat)
    requires m / 0x400 == n / 0x400 && m % 0x400 == n % 0x400
    ensures m == n
  {
  }

  lemma {:induction false} LongEscapePrefixFree(c: char, d: char, x: string, y: string)
    requires !IsPlain(c) && !IsShort(c) && !IsPlain(d) && !IsShort(d)
    requires Escape(c) + x == Escape(d) + y
    ensures c == d
  {
    UnitsOf(c, x);
    UnitsOf(d, y);
    Hex4Injective(Unit(c), Unit(d));
    if Code(c) >= 0x10000 {
      Hex4Injective(Low(c), Low(d));
      UnitsDecide(Code(c) - 0x10000, Code(d) - 0x10000);
    }
    assert Code(c) == Code(d);
  }

  /** Escapes are a prefix code. */
  lemma {:induction false} EscapePrefixFree(c: char, d: char, x: string, y: string)
    requires Escape(c) + x == Escape(d) + y
    ensures c == d && x == y
  {
    EscapeForm(c);
    EscapeForm(d);
    assert (Escape(c) + x)[0] == (Escape(d) + y)[0];
    if !IsPlain(c) {
      assert (Escape(c) + x)[1] == (Escape(d) + y)[1];
      if !IsShort(c) {
        LongEscapePrefixFree(c, d, x, y);
      } else {
        assert Letter(c) == Letter(d);
      }
    }
    assert (Escape(c) + x)[|Escape(c)|..] == x;
    assert (Escape(d) + y)[|Escape(d)|..] == y;
  }

  lemma {:induction false} EscapeAllText(s: string, x: string)
    requires s != ""
    ensures EscapeAll(s) + x == Escape(s[0]) + (EscapeAll(s[1..]) + x)
    ensures (EscapeAll(s) + x)[0] != QUOTE
  {
    EscapeForm(s[0]);
    Associates(Escape(s[0]), EscapeAll(s[1..]), x);
    Tail(Escape(s[0]), EscapeAll(s[1..]) + x);
  }

  lemma {:induction false} EscapeAllPrefixFree(s: string, t: string, x: string, y: string)
    requires x != "" && y != "" && x[0] == y[0] == QUOTE
    requires EscapeAll(s) + x == EscapeAll(t) + y
    ensures s == t && x == y
    decreases |s|
  {
    if s == "" && t == "" {
      assert EscapeAll(s) + x == x && EscapeAll(t) + y == y;
    } else if s == "" {
      assert EscapeAll(s) + x == x;
      EscapeAllText(t, y);
    } else if t == "" {
      assert EscapeAll(t) + y == y;
      EscapeAllText(s, x);
    } else {
      EscapeAllText(s, x);
      EscapeAllText(t, y);
      EscapePrefixFree(s[0], t[0], EscapeAll(s[1..]) + x, EscapeAll(t[1..]) + y);
      EscapeAllPrefixFree(s[1..], t[1..], x, y);
      assert s == [s[0]] + s[1..] && t == [t[0]] + t[1..];
    }
  }

  lemma {:induction false} QuotedText(s: string, x: string)
    ensures Quoted(s) + x == [QUOTE] + (EscapeAll(s) + ([QUOTE] + x))
  {
    Associates([QUOTE] + EscapeAll(s), [QUOTE], x);
    Associates([QUOTE], EscapeAll(s), [QUOTE] + x);
  }

  lemma {:induction false} QuotedPrefixFree(s: string, t: string, x: string, y: string)
    requires Quoted(s) + x == Quoted(t) + y
    ensures s == t && x == y
  {
    QuotedText(s, x);
    QuotedText(t, y);
    Tail([QUOTE], EscapeAll(s) + ([QUOTE] + x));
    Tail([QUOTE], EscapeAll(t) + ([QUOTE] + y));
    EscapeAllPrefixFree(s, t, [QUOTE] + x, [QUOTE] + y);
    Tail([QUOTE], x);
    Tail([QUOTE], y);
  }

  // ------------------------------------------------------------------ numbers

  predicate NumberChar(c: char) { '0' <= c <= '9' || c in {'+', '-', '.', 'e', 'E'} }

  /** Section 6 of RFC 8259, as far as it matters for telling numbers apart. */
  predicate NumberText(text: string) { text != "" && forall i :: 0 <= i < |text| ==> NumberChar(text[i]) }

  /** What can follow a value: nothing, or a separator or closing bracket. */
  predicate Ends(x: string) { x == "" || x[0] in {',', ']', '}'} }

  function Span(u: string): nat { if u == "" || !NumberChar(u[0]) then 0 else 1 + Span(u[1..]) }

  lemma {:induction false} SpanOfNumber(s: string, x: string)
    requires Ends(x) && forall i :: 0 <= i < |s| ==> NumberChar(s[i])
    ensures Span(s + x) == |s|
  {
    if s == "" {
      assert s + x == x;
    } else {
      assert (s + x)[1..] == s[1..] + x;
      SpanOfNumber(s[1..], x);
    }
  }

  lemma {:induction false} NumberPrefixFree(s: string, t: string, x: string, y: string)
    requires NumberText(s) && NumberText(t) && Ends(x) && Ends(y) && s + x == t + y
    ensures s == t && x == y
  {
    SpanOfNumber(s, x);
    SpanOfNumber(t, y);
    assert (s + x)[..|s|] == s && (t + y)[..|t|] == t;
    Tail(s, x);
    Tail(t, y);
  }

  // ------------------------------------------------------------------ trees

  /** A tree the encoder prints as JSON: no NaN, numbers that look like numbers. */
  ghost predicate Printable(j: Json)
    decreases j
  {
    match j
    case Number(text) => NumberText(text)
    case NotFinite => false
    case List(items) => forall i :: 0 <= i < |items| ==> Printable(items[i])
    case Dict(fs) => forall i :: 0 <= i < |fs| ==> Printable(fs[i].value)
    case _ => true
  }

  predicate Leads(j: Json, c: char) {
    match j
    case Null => c == 'n'
    case Boolean(b) => c == if b then 't' else 'f'
    case Number(_) => NumberChar(c)
    case NotFinite => c == 'N'
    case Text(_) => c == QUOTE
    case List(_) => c == '['
    case Dict(_) => c == '{'
  }

  lemma {:induction false} PrintLeads(j: Json)
    requires Printable(j)
    ensures Print(j) != "" && Leads(j, Print(j)[0])
  {
  }

  /** Text of the remaining items with their closing bracket. */
  function ItemsTail(items: seq<Json>, x: string): string {
    if |items| <= 1 then "]" + x else ", " + (PrintItems(items[1..]) + ("]" + x))
  }

  function FieldsTail(fs: seq<Field>, x: string): string {
    if |fs| <= 1 then "}" + x else ", " + (PrintFields(fs[1..]) + ("}" + x))
  }

  lemma {:induction false} ItemsText(items: seq<Json>, x: string)
    requires items != []
    ensures PrintItems(items) + ("]" + x) == Print(items[0]) + ItemsTail(items, x) && Ends(ItemsTail(items, x))
  {
    if |items| == 1 {
      assert PrintItems(items) == Print(items[0]) + "";
    } else {
      var rest := PrintItems(items[1..]);
      Associates(Print(items[0]), ", " + rest, "]" + x);
      Associates(", ", rest, "]" + x);
      Tail(", ", rest + ("]" + x));
    }
  }

  lemma {:induction false} FieldsText(fs: seq<Field>, x: string)
    requires fs != []
    ensures PrintFields(fs) + ("}" + x) == Quoted(fs[0].key) + (": " + (Print(fs[0].value) + FieldsTail(fs, x)))
    ensures Ends(FieldsTail(fs, x))
  {
    var key, value, tail := Quoted(fs[0].key), Print(fs[0].value), FieldsTail(fs, x);
    Associates(key + ": ", value, tail);
    Associates(key, ": ", value + tail);
    if |fs| == 1 {
      assert PrintFields(fs) == (key + ": " + value) + "";
    } else {
      var rest := PrintFields(fs[1..]);
      Associates(key + ": " + value, ", " + rest, "}" + x);
      Associates(", ", rest, "}" + x);
      Tail(", ", rest + ("}" + x));
    }
  }

  lemma {:induction false} DropBracket(open_: string, body: string, close: string, x: string)
    requires |open_| == 1
    ensures (open_ + body + close + x)[1..] == body + (close + x)
  {
  }

  lemma {:induction false} LiteralsPrefixFree(a: Json, b: Json, x: string, y: string)
    requires (a.Null? || a.Boolean?) && (b.Null? || b.Boolean?)
    requires Print(a) + x == Print(b) + y
    ensures a == b && x == y
  {
    assert (Print(a) + x)[0] == (Print(b) + y)[0];
    assert (Print(a) + x)[|Print(a)|..] == x && (Print(b) + y)[|Print(b)|..] == y;
  }

  /** The printed form is a prefix code up to what may follow a value. */
  lemma {:induction false} PrintPrefixFree(a: Json, b: Json, x: string, y: string)
    requires Printable(a) && Printable(b) && Ends(x) && Ends(y)
    requires Print(a) + x == Print(b) + y
    ensures a == b && x == y
    decreases a, 1
  {
    PrintLeads(a);
    PrintLeads(b);
    assert (Print(a) + x)[0] == Print(a)[0] && (Print(b) + y)[0] == Print(b)[0];
    match a
    case Null => LiteralsPrefixFree(a, b, x, y);
    case Boolean(_) => LiteralsPrefixFree(a, b, x, y);
    case Number(s) => NumberPrefixFree(s, b.text, x, y);
    case Text(s) => QuotedPrefixFree(s, b.s, x, y);
    case List(items) =>
      DropBracket("[", PrintItems(items), "]", x);
      DropBracket("[", PrintItems(b.items), "]", y);
      ItemsPrefixFree(items, b.items, x, y);
    case Dict(fs) =>
      DropBracket("{", PrintFields(fs), "}", x);
      DropBracket("{", PrintFields(b.fields), "}", y);
      FieldsPrefixFree(fs, b.fields, x, y);
  }

  lemma {:induction false} ItemsTails(a: seq<Json>, b: seq<Json>, x: string, y: string)
    requires a != [] && b != [] && ItemsTail(a, x) == ItemsTail(b, y)
    ensures |a| == 1 <==> |b| == 1
    ensures |a| == 1 ==> x == y
    ensures |a| > 1 ==> PrintItems(a[1..]) + ("]" + x) == PrintItems(b[1..]) + ("]" + y)
  {
    var u, v := ItemsTail(a, x), ItemsTail(b, y);
    assert u[0] == v[0];
    if |a| == 1 {
      Tail("]", x);
      Tail("]", y);
    } else {
      Tail(", ", PrintItems(a[1..]) + ("]" + x));
      Tail(", ", PrintItems(b[1..]) + ("]" + y));
    }
  }

  lemma {:induction false} FieldsTails(a: seq<Field>, b: seq<Field>, x: string, y: string)
    requires a != [] && b != [] && FieldsTail(a, x) == FieldsTail(b, y)
    ensures |a| == 1 <==> |b| == 1
    ensures |a| == 1 ==> x == y
    ensures |a| > 1 ==> PrintFields(a[1..]) + ("}" + x) == PrintFields(b[1..]) + ("}" + y)
  {
    var u, v := FieldsTail(a, x), FieldsTail(b, y);
    assert u[0] == v[0];
    if |a| == 1 {
      Tail("}", x);
      Tail("}", y);
    } else {
      Tail(", ", PrintFields(a[1..]) + ("}" + x));
      Tail(", ", PrintFields(b[1..]) + ("}" + y));
    }
  }

  lemma {:induction false} NoItemsText(items: seq<Json>, x: string)
    requires forall i :: 0 <= i < |items| ==> Printable(items[i])
    ensures (PrintItems(items) + ("]" + x))[0] == ']' <==> items == []
    ensures items == [] ==> PrintItems(items) + ("]" + x) == "]" + x
  {
    if items == [] {
      assert PrintItems(items) + ("]" + x) == "]" + x;
    } else {
      PrintLeads(items[0]);
      ItemsText(items, x);
      Tail(Print(items[0]), ItemsTail(items, x));
    }
  }

  lemma {:induction false} NoFieldsText(fs: seq<Field>, x: string)
    ensures (PrintFields(fs) + ("}" + x))[0] == '}' <==> fs == []
    ensures fs == [] ==> PrintFields(fs) + ("}" + x) == "}" + x
  {
    if fs == [] {
      assert PrintFields(fs) + ("}" + x) == "}" + x;
    } else {
      FieldsText(fs, x);
      QuotedText(fs[0].key, ": " + (Print(fs[0].value) + FieldsTail(fs, x)));
    }
  }

  /** Cut after the first item: the heads agree, and so does what follows them. */
  lemma {:induction false} FirstItems(a: seq<Json>, b: seq<Json>, x: string, y: string)
    requires a != [] && b != [] && PrintItems(a) + ("]" + x) == PrintItems(b) + ("]" + y)
    ensures Print(a[0]) + ItemsTail(a, x) == Print(b[0]) + ItemsTail(b, y)
    ensures Ends(ItemsTail(a, x)) && Ends(ItemsTail(b, y))
  {
    ItemsText(a, x);
    ItemsText(b, y);
  }

  lemma {:induction false} ItemsPrefixFree(a: seq<Json>, b: seq<Json>, x: string, y: string)
    requires forall i :: 0 <= i < |a| ==> Printable(a[i])
    requires forall i :: 0 <= i < |b| ==> Printable(b[i])
    requires PrintItems(a) + ("]" + x) == PrintItems(b) + ("]" + y)
    ensures a == b && x == y
    decreases a, 0
  {
    NoItemsText(a, x);
    NoItemsText(b, y);
    if a == [] {
      Tail("]", x);
      Tail("]", y);
    } else {
      FirstItems(a, b, x, y);
      PrintPrefixFree(a[0], b[0], ItemsTail(a, x), ItemsTail(b, y));
      ItemsTails(a, b, x, y);
      if |a| > 1 { ItemsPrefixFree(a[1..], b[1..], x, y); }
      HeadAndTail(a, b);
    }
  }

  lemma {:induction false} HeadAndTail<T>(a: seq<T>, b: seq<T>)
    requires a != [] && b != [] && a[0] == b[0] && (|a| == 1 <==> |b| == 1)
    requires |a| > 1 ==> a[1..] == b[1..]
    ensures a == b
  {
    if |a| > 1 { assert a == [a[0]] + a[1..] && b == [b[0]] + b[1..]; }
  }

  /** The same for the first field: key, then value and what follows it. */
  lemma {:induction false} FirstFields(a: seq<Field>, b: seq<Field>, x: string, y: string)
    requires a != [] && b != [] && PrintFields(a) + ("}" + x) == PrintFields(b) + ("}" + y)
    ensures a[0].key == b[0].key
    ensures Print(a[0].value) + FieldsTail(a, x) == Print(b[0].value) + FieldsTail(b, y)
    ensures Ends(FieldsTail(a, x)) && Ends(FieldsTail(b, y))
  {
    FieldsText(a, x);
    FieldsText(b, y);
    var p, q := Print(a[0].value) + FieldsTail(a, x), Print(b[0].value) + FieldsTail(b, y);
    QuotedPrefixFree(a[0].key, b[0].key, ": " + p, ": " + q);
    Tail(": ", p);
    Tail(": ", q);
  }

  lemma {:induction false} SameField(f: Field, g: Field)
    requires f.key == g.key && f.value == g.value
    ensures f == g
  {
  }

  lemma {:induction false} FieldsPrefixFree(a: seq<Field>, b: seq<Field>, x: string, y: string)
    requires forall i :: 0 <= i < |a| ==> Printable(a[i].value)
    requires forall i :: 0 <= i < |b| ==> Printable(b[i].value)
    requires PrintFields(a) + ("}" + x) == PrintFields(b) + ("}" + y)
    ensures a == b && x == y
    decreases a, 0
  {
    NoFieldsText(a, x);
    NoFieldsText(b, y);
    if a == [] {
      Tail("}", x);
      Tail("}", y);
    } else {
      FirstFields(a, b, x, y);
      PrintPrefixFree(a[0].value, b[0].value, FieldsTail(a, x), FieldsTail(b, y));
      FieldsTails(a, b, x, y);
      if |a| > 1 { FieldsPrefixFree(a[1..], b[1..], x, y); }
      SameField(a[0], b[0]);
      HeadAndTail(a, b);
    }
  }

  /** Two printable trees with the same text are the same tree. */
  lemma {:induction false} PrintInjective(a: Json, b: Json)
    requires Printable(a) && Printable(b) && Print(a) == Print(b)
    ensures a == b
  {
    assert Print(a) + "" == Print(b) + "";
    PrintPrefixFree(a, b, "", "");
  }
}
