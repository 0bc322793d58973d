/** Optimizer contexts and their canonical text: `backend/context_utils.py`. The text
    follows sections 4 to 7 of RFC 8259. */
module ContextCanon {
  import opened Options

  /** A parsed context. `Number` keeps its printed form, `NotFinite` is NaN or an infinity,
      and the fields of a `Dict` are in insertion order. */
  datatype Json =
    | Null
    | Boolean(b: bool)
    | Number(text: string)
    | NotFinite
    | Text(s: string)
    | List(items: seq<Json>)
    | Dict(fields: seq<Field>)

  datatype Field = Field(key: string, value: Json)

  const VOLATILE_FIELDS: set<string> :=
    {"timestamp", "last_run", "cached_at", "elapsed_ms", "last_triggered", "updated_at", "last_recompute"}

  /** `_sanitize_floats`. */
  function Sanitize(j: Json): Json
    decreases j
  {
    match j
    case NotFinite => Null
    case List(items) => List(seq(|items|, i requires 0 <= i < |items| => Sanitize(items[i])))
    case Dict(fs) => Dict(seq(|fs|, i requires 0 <= i < |fs| => Field(fs[i].key, Sanitize(fs[i].value))))
    case _ => j
  }

  /** `strip_volatile_fields`: it descends through dictionaries only. */
  function Strip(j: Json): Json
    decreases j, 1
  {
    match j
    case Dict(fs) => Dict(StripFields(fs))
    case _ => j
  }

  function StripFields(fs: seq<Field>): seq<Field>
    decreases fs, 0
  {
    if fs == [] then []
    else if fs[0].key in VOLATILE_FIELDS then StripFields(fs[1..])
    else [Field(fs[0].key, Strip(fs[0].value))] + StripFields(fs[1..])
  }

  // ------------------------------------------------------------------ key order

  /** Python's order on strings: by code point, first difference decides. */
  predicate Precedes(a: string, b: string) {
    if b == "" then false
    else if a == "" then true
    else a[0] < b[0] || (a[0] == b[0] && Precedes(a[1..], b[1..]))
  }

  function Insert(f: Field, sorted: seq<Field>): (r: seq<Field>)
    ensures multiset(r) == multiset(sorted) + multiset{f}
  {
    if sorted == [] || !Precedes(sorted[0].key, f.key) then [f] + sorted
    else
      assert sorted == [sorted[0]] + sorted[1..];
      [sorted[0]] + Insert(f, sorted[1..])
  }

  function SortFields(fs: seq<Field>): (r: seq<Field>)
    ensures multiset(r) == multiset(fs)
  {
    if fs == [] then []
    else
      assert fs == [fs[0]] + fs[1..];
      Insert(fs[0], SortFields(fs[1..]))
  }

  /** The tree in the order in which it is printed. */
  function SortKeys(j: Json): Json
    decreases j
  {
    match j
    case List(items) => List(seq(|items|, i requires 0 <= i < |items| => SortKeys(items[i])))
    case Dict(fs) => Dict(SortFields(seq(|fs|, i requires 0 <= i < |fs| => Field(fs[i].key, SortKeys(fs[i].value)))))
    case _ => j
  }

  // ------------------------------------------------------------------ text

  function HexDigit(n: nat): char
    requires n < 16
  {
    if n < 10 then ('0' as int + n) as char else ('a' as int + n - 10) as char
  }

  function Hex4(n: nat): (h: string)
    requires n < 0x10000
    ensures |h| == 4
  {
    var p := n / 16;
    var q := p / 16;
    [HexDigit(q / 16), HexDigit(q % 16), HexDigit(p % 16), HexDigit(n % 16)]
  }

  function Code(c: char): nat { c as int }

  const QUOTE: char := '\"'
  const BACKSLASH: char := '\\'

  /** One character of a string, in ASCII. */
  function Escape(c: char): string {
    var n := Code(c);
    if c == QUOTE || c == BACKSLASH then [BACKSLASH, c]
    else if n == 8 then [BACKSLASH, 'b']
    else if n == 9 then [BACKSLASH, 't']
    else if n == 10 then [BACKSLASH, 'n']
    else if n == 12 then [BACKSLASH, 'f']
    else if n == 13 then [BACKSLASH, 'r']
    else if 32 <= n <= 126 then [c]
    else if n < 0x10000 then [BACKSLASH, 'u'] + Hex4(n)
    else
      var m := n - 0x10000;
      [BACKSLASH, 'u'] + Hex4(0xD800 + m / 0x400) + ([BACKSLASH, 'u'] + Hex4(0xDC00 + m % 0x400))
  }

  function EscapeAll(s: string): string {
    if s == "" then "" else Escape(s[0]) + EscapeAll(s[1..])
  }

  function Quoted(s: string): string { [QUOTE] + EscapeAll(s) + [QUOTE] }

  /** The encoder, on a tree whose keys are already in order. */
  function Print(j: Json): string
    decreases j, 1
  {
    match j
    case Null => "null"
    case Boolean(b) => if b then "true" else "false"
    case Number(text) => text
    case NotFinite => "NaN"
    case Text(s) => Quoted(s)
    case List(items) => "[" + PrintItems(items) + "]"
    case Dict(fs) => "{" + PrintFields(fs) + "}"
  }

  function PrintItems(items: seq<Json>): string
    decreases items, 0
  {
    if items == [] then ""
    else Print(items[0]) + if |items| == 1 then "" else ", " + PrintItems(items[1..])
  }

  function PrintFields(fs: seq<Field>): string
    decreases fs, 0
  {
    if fs == [] then ""
    else Quoted(fs[0].key) + ": " + Print(fs[0].value) + if |fs| == 1 then "" else ", " + PrintFields(fs[1..])
  }

  /** `stable_json_dumps`. */
  function StableDumps(j: Json): string { Print(SortKeys(Sanitize(j))) }

  /** `normalize_context_json`, where `loads` is `None` when parsing raises. */
  function NormalizeContextJson(loads: string -> Option<Json>, raw: string): string {
    match loads(raw)
    case None => raw
    case Some(parsed) => StableDumps(if parsed.Dict? then Strip(parsed) else parsed)
  }
}
