/**
 JSON values and `json.dumps(..., sort_keys=True, ensure_ascii=False)`.
 Objects keep their entries in insertion order, as Python dictionaries do.
 The main result is that the text decides the value: two values with the same
 dump are the same value up to the order of object keys.
 */
module JsonText {
  import opened Ordering

  // A number is kept as the token Python writes for it.
  datatype Json =
    | Null
    | Bool(b: bool)
    | Num(token: string)
    | Str(s: string)
    | Arr(items: seq<Json>)
    | Obj(entries: seq<Keyed<Json>>)

  // `separators` of json.dumps
  datatype Style = Style(comma: string, colon: string)

  const SPACED := Style(", ", ": ")
  const COMPACT := Style(",", ":")

  predicate IsNumChar(c: char) {
    '0' <= c <= '9' || c == '-' || c == '+' || c == '.' || c == 'e' || c == 'E'
  }

  predicate IsNumToken(t: string) {
    t != "" && ('0' <= t[0] <= '9' || t[0] == '-') && forall i :: 0 <= i < |t| ==> IsNumChar(t[i])
  }

  /** What `json.loads` can produce: number tokens, and no key twice in an object. */
  ghost predicate WellFormed(v: Json)
    decreases v
  {
    match v
    case Num(t) => IsNumToken(t)
    case Arr(items) => forall i :: 0 <= i < |items| ==> WellFormed(items[i])
    case Obj(es) => DistinctKeys(es) && forall i :: 0 <= i < |es| ==> WellFormed(es[i].value)
    case _ => true
  }

  // Every object lists its keys in increasing order.
  ghost predicate KeysSorted(v: Json)
    decreases v
  {
    match v
    case Arr(items) => forall i :: 0 <= i < |items| ==> KeysSorted(items[i])
    case Obj(es) => Sorted(es) && forall i :: 0 <= i < |es| ==> KeysSorted(es[i].value)
    case _ => true
  }

  // The token of a natural number.
  function NatToken(n: nat): (t: string)
    ensures IsNumToken(t) && (n < 10 <==> |t| == 1)
  {
    var last := [('0' as int + n % 10) as char];
    if n < 10 then last else NatToken(n / 10) + last
  }

  lemma {:induction false} NatTokenDecides(m: nat, n: nat)
    requires NatToken(m) == NatToken(n)
    ensures m == n
  {
    var s, t := NatToken(m), NatToken(n);
    assert s[|s| - 1] == ('0' as int + m % 10) as char && t[|t| - 1] == ('0' as int + n % 10) as char;
    if m >= 10 {
      assert s[..|s| - 1] == NatToken(m / 10) && t[..|t| - 1] == NatToken(n / 10);
      NatTokenDecides(m / 10, n / 10);
    }
  }

  // ---------------------------------------------------------------- writing

  function HexDigit(n: int): char
    requires 0 <= n < 16
  {
    if n < 10 then ('0' as int + n) as char else ('a' as int + n - 10) as char
  }

  function EscapeChar(c: char): string {
    var n := c as int;
    if c == '\"' then "\\\""
    else if c == '\\' then "\\\\"
    else if c == '\n' then "\\n"
    else if c == '\r' then "\\r"
    else if c == '\t' then "\\t"
    else if n == 8 then "\\b"
    else if n == 12 then "\\f"
    else if n < 32 then "\\u00" + [HexDigit(n / 16), HexDigit(n % 16)]
    else [c]
  }

  // The escaped characters of s followed by rest.
  function Escape(s: string, rest: string): string {
    if s == "" then rest else EscapeChar(s[0]) + Escape(s[1..], rest)
  }

  function Quote(s: string, rest: string): string {
    "\"" + Escape(s, "\"" + rest)
  }

  // The dump of v, with entries in the order v lists them, followed by rest.
  function Write(v: Json, st: Style, rest: string): string
    decreases v, 0
  {
    match v
    case Null => "null" + rest
    case Bool(b) => (if b then "true" else "false") + rest
    case Num(t) => t + rest
    case Str(s) => Quote(s, rest)
    case Arr(items) =>
      "[" + if items == [] then "]" + rest else Write(items[0], st, ItemsTail(items[1..], st, rest))
    case Obj(es) =>
      "{" + if es == [] then "}" + rest else WriteEntry(es[0], st, EntriesTail(es[1..], st, rest))
  }

  function WriteEntry(e: Keyed<Json>, st: Style, rest: string): string
    decreases e, 1
  {
    Quote(e.key, st.colon + Write(e.value, st, rest))
  }

  function ItemsTail(items: seq<Json>, st: Style, rest: string): string
    decreases items, 0
  {
    if items == [] then "]" + rest else st.comma + Write(items[0], st, ItemsTail(items[1..], st, rest))
  }

  function EntriesTail(es: seq<Keyed<Json>>, st: Style, rest: string): string
    decreases es, 0
  {
    if es == [] then "}" + rest else st.comma + WriteEntry(es[0], st, EntriesTail(es[1..], st, rest))
  }

  // `sort_keys=True`, at every depth
  function SortKeys(v: Json): Json
    decreases v, 0
  {
    match v
    case Arr(items) => Arr(SortKeysItems(items))
    case Obj(es) => Obj(Sort(SortKeysEntries(es)))
    case _ => v
  }

  function SortKeysItems(items: seq<Json>): seq<Json>
    decreases items, 0
  {
    if items == [] then [] else [SortKeys(items[0])] + SortKeysItems(items[1..])
  }

  function SortKeysEntries(es: seq<Keyed<Json>>): seq<Keyed<Json>>
    decreases es, 0
  {
    if es == [] then [] else [Keyed(es[0].key, SortKeys(es[0].value))] + SortKeysEntries(es[1..])
  }

  function Dumps(v: Json, st: Style): string {
    Write(SortKeys(v), st, "")
  }

  // -------------------------------------------------- sorted keys stay as they are

  lemma {:induction false} SortKeysOfSorted(v: Json)
    requires KeysSorted(v)
    ensures SortKeys(v) == v
    decreases v, 0
  {
    match v
    case Arr(items) => SortKeysItemsOfSorted(items);
    case Obj(es) =>
      SortKeysEntriesOfSorted(es);
      SortOfSorted(es);
    case _ =>
  }

  lemma {:induction false} SortKeysItemsOfSorted(items: seq<Json>)
    requires forall i :: 0 <= i < |items| ==> KeysSorted(items[i])
    ensures SortKeysItems(items) == items
    decreases items, 0
  {
    if items != [] {
      SortKeysOfSorted(items[0]);
      SortKeysItemsOfSorted(items[1..]);
    }
  }

  lemma {:induction false} SortKeysEntriesOfSorted(es: seq<Keyed<Json>>)
    requires forall i :: 0 <= i < |es| ==> KeysSorted(es[i].value)
    ensures SortKeysEntries(es) == es
    decreases es, 0
  {
    if es != [] {
      SortKeysOfSorted(es[0].value);
      SortKeysEntriesOfSorted(es[1..]);
    }
  }

  // ---------------------------------------------------------------- reading back

  function HexValue(c: char): int {
    if '0' <= c <= '9' then c as int - '0' as int else c as int - 'a' as int + 10
  }

  // One escaped character off the front of s.
  function ReadChar(s: string): (r: (int, string))
    requires s != ""
  {
    if s[0] != '\\' then (s[0] as int, s[1..])
    else if |s| < 2 then (0, "")
    else if s[1] == 'n' then (10, s[2..])
    else if s[1] == 'r' then (13, s[2..])
    else if s[1] == 't' then (9, s[2..])
    else if s[1] == 'b' then (8, s[2..])
    else if s[1] == 'f' then (12, s[2..])
    else if s[1] != 'u' then (s[1] as int, s[2..])
    else if |s| < 6 then (0, "")
    else (16 * HexValue(s[4]) + HexValue(s[5]), s[6..])
  }

  lemma ReadEscaped(c: char, s: string)
    ensures EscapeChar(c) != "" && EscapeChar(c)[0] != '\"'
    ensures ReadChar(EscapeChar(c) + s) == (c as int, s)
  {
    var e := EscapeChar(c);
    var w := e + s;
    assert w[|e|..] == s;
    if |e| == 6 {
      assert w[4] == HexDigit(c as int / 16) && w[5] == HexDigit(c as int % 16);
    }
  }

  lemma {:induction false} EscapeDecides(x: string, y: string, s: string, t: string)
    requires Escape(x, "\"" + s) == Escape(y, "\"" + t)
    ensures x == y && s == t
  {
    if x != "" {
      ReadEscaped(x[0], Escape(x[1..], "\"" + s));
    }
    if y != "" {
      ReadEscaped(y[0], Escape(y[1..], "\"" + t));
    }
    if x == "" && y == "" {
      DropPrefix("\"", s, t);
    } else {
      assert x != "" && y != "";
      EscapeDecides(x[1..], y[1..], s, t);
      assert x == [x[0]] + x[1..] && y == [y[0]] + y[1..];
    }
  }

  lemma QuoteDecides(x: string, y: string, s: string, t: string)
    requires Quote(x, s) == Quote(y, t)
    ensures x == y && s == t
  {
    DropPrefix("\"", Escape(x, "\"" + s), Escape(y, "\"" + t));
    EscapeDecides(x, y, s, t);
  }

  lemma DropPrefix(p: string, a: string, b: string)
    requires p + a == p + b
    ensures a == b
  {
    assert (p + a)[|p|..] == a && (p + b)[|p|..] == b;
  }

  // What may follow a complete value.
  predicate Delimits(s: string) {
    s == "" || s[0] == ',' || s[0] == ']' || s[0] == '}'
  }

  predicate GoodStyle(st: Style) {
    st.comma != "" && st.comma[0] == ','
  }

  lemma NumDecides(a: string, b: string, s: string, t: string)
    requires IsNumToken(a) && IsNumToken(b) && Delimits(s) && Delimits(t) && a + s == b + t
    ensures a == b && s == t
  {
    var w := a + s;
    assert |a| >= |b| ==> w[..|b|] == b;
    assert |a| <= |b| ==> (b + t)[..|a|] == a;
    assert |a| == |b|;
    assert |a| == |b| ==> w[|a|..] == s && (b + t)[|b|..] == t;
  }

  // The kind of value, as its first character tells it.
  function Kind(c: char): int {
    if c == 'n' then 0 else if c == 't' then 1 else if c == 'f' then 2
    else if c == '\"' then 4 else if c == '[' then 5 else if c == '{' then 6
    else if c == ']' || c == '}' || c == ',' then 7 else 3
  }

  function KindOf(v: Json): int {
    match v
    case Null => 0
    case Bool(b) => if b then 1 else 2
    case Num(_) => 3
    case Str(_) => 4
    case Arr(_) => 5
    case Obj(_) => 6
  }

  lemma FirstChar(v: Json, st: Style, rest: string)
    requires v.Num? ==> IsNumToken(v.token)
    ensures Write(v, st, rest) != "" && Kind(Write(v, st, rest)[0]) == KindOf(v)
  {
  }

  lemma TailsDelimit(items: seq<Json>, es: seq<Keyed<Json>>, st: Style, rest: string)
    requires GoodStyle(st)
    ensures Delimits(ItemsTail(items, st, rest)) && Delimits(EntriesTail(es, st, rest))
    ensures items == [] <==> ItemsTail(items, st, rest)[0] == ']'
    ensures es == [] <==> EntriesTail(es, st, rest)[0] == '}'
  {
  }

  ghost predicate GoodItems(xs: seq<Json>) {
    forall i :: 0 <= i < |xs| ==> WellFormed(xs[i])
  }

  ghost predicate GoodValues(xs: seq<Keyed<Json>>) {
    forall i :: 0 <= i < |xs| ==> WellFormed(xs[i].value)
  }

  /** A dump followed by a delimiter can be read in one way only. */
  lemma {:induction false} WriteDecides(a: Json, b: Json, st: Style, s: string, t: string)
    requires WellFormed(a) && WellFormed(b) && GoodStyle(st) && Delimits(s) && Delimits(t)
    requires Write(a, st, s) == Write(b, st, t)
    ensures a == b && s == t
    decreases a, 0
  {
    FirstChar(a, st, s);
    FirstChar(b, st, t);
    match a
    case Null => DropPrefix("null", s, t);
    case Bool(x) => DropPrefix(if x then "true" else "false", s, t);
    case Num(x) => NumDecides(x, b.token, s, t);
    case Str(x) => QuoteDecides(x, b.s, s, t);
    case Arr(xs) =>
      var ys := b.items;
      var u := if xs == [] then "]" + s else Write(xs[0], st, ItemsTail(xs[1..], st, s));
      var w := if ys == [] then "]" + t else Write(ys[0], st, ItemsTail(ys[1..], st, t));
      DropPrefix("[", u, w);
      FirstItemDecides(xs, ys, st, s, t);
    case Obj(xs) =>
      var ys := b.entries;
      var u := if xs == [] then "}" + s else WriteEntry(xs[0], st, EntriesTail(xs[1..], st, s));
      var w := if ys == [] then "}" + t else WriteEntry(ys[0], st, EntriesTail(ys[1..], st, t));
      DropPrefix("{", u, w);
      FirstEntryDecides(xs, ys, st, s, t);
  }

  lemma TokenOf(v: Json)
    requires WellFormed(v)
    ensures v.Num? ==> IsNumToken(v.token)
  {
  }

  lemma {:induction false} FirstItemDecides(xs: seq<Json>, ys: seq<Json>, st: Style, s: string, t: string)
    requires GoodItems(xs) && GoodItems(ys) && GoodStyle(st) && Delimits(s) && Delimits(t)
    requires (if xs == [] then "]" + s else Write(xs[0], st, ItemsTail(xs[1..], st, s)))
          == (if ys == [] then "]" + t else Write(ys[0], st, ItemsTail(ys[1..], st, t)))
    ensures xs == ys && s == t
    decreases xs, 2
  {
    hide WellFormed, KeysSorted, Write;
    if xs != [] {
      TokenOf(xs[0]);
      FirstChar(xs[0], st, ItemsTail(xs[1..], st, s));
    }
    if ys != [] {
      TokenOf(ys[0]);
      FirstChar(ys[0], st, ItemsTail(ys[1..], st, t));
    }
    if xs == [] && ys == [] {
      DropPrefix("]", s, t);
    } else {
      assert xs != [] && ys != [];
      TailsDelimit(xs[1..], [], st, s);
      TailsDelimit(ys[1..], [], st, t);
      WriteDecides(xs[0], ys[0], st, ItemsTail(xs[1..], st, s), ItemsTail(ys[1..], st, t));
      ItemsDecide(xs[1..], ys[1..], st, s, t);
      assert xs == [xs[0]] + xs[1..] && ys == [ys[0]] + ys[1..];
    }
  }

  lemma {:induction false} ItemsDecide(xs: seq<Json>, ys: seq<Json>, st: Style, s: string, t: string)
    requires GoodItems(xs) && GoodItems(ys) && GoodStyle(st) && Delimits(s) && Delimits(t)
    requires ItemsTail(xs, st, s) == ItemsTail(ys, st, t)
    ensures xs == ys && s == t
    decreases xs, 3
  {
    TailsDelimit(xs, [], st, s);
    TailsDelimit(ys, [], st, t);
    if xs == [] {
      DropPrefix("]", s, t);
    } else {
      DropPrefix(st.comma, Write(xs[0], st, ItemsTail(xs[1..], st, s)), Write(ys[0], st, ItemsTail(ys[1..], st, t)));
      FirstItemDecides(xs, ys, st, s, t);
    }
  }

  lemma {:induction false} FirstEntryDecides(xs: seq<Keyed<Json>>, ys: seq<Keyed<Json>>, st: Style, s: string, t: string)
    requires GoodValues(xs) && GoodValues(ys) && GoodStyle(st) && Delimits(s) && Delimits(t)
    requires (if xs == [] then "}" + s else WriteEntry(xs[0], st, EntriesTail(xs[1..], st, s)))
          == (if ys == [] then "}" + t else WriteEntry(ys[0], st, EntriesTail(ys[1..], st, t)))
    ensures xs == ys && s == t
    decreases xs, 2
  {
    hide WellFormed, KeysSorted, Write;
    if xs == [] && ys == [] {
      DropPrefix("}", s, t);
    } else {
      assert xs != [] && ys != [];
      var (u, w) := (EntriesTail(xs[1..], st, s), EntriesTail(ys[1..], st, t));
      TailsDelimit([], xs[1..], st, s);
      TailsDelimit([], ys[1..], st, t);
      QuoteDecides(xs[0].key, ys[0].key, st.colon + Write(xs[0].value, st, u), st.colon + Write(ys[0].value, st, w));
      DropPrefix(st.colon, Write(xs[0].value, st, u), Write(ys[0].value, st, w));
      WriteDecides(xs[0].value, ys[0].value, st, u, w);
      EntriesDecide(xs[1..], ys[1..], st, s, t);
      assert xs == [xs[0]] + xs[1..] && ys == [ys[0]] + ys[1..];
    }
  }

  lemma {:induction false} EntriesDecide(xs: seq<Keyed<Json>>, ys: seq<Keyed<Json>>, st: Style, s: string, t: string)
    requires GoodValues(xs) && GoodValues(ys) && GoodStyle(st) && Delimits(s) && Delimits(t)
    requires EntriesTail(xs, st, s) == EntriesTail(ys, st, t)
    ensures xs == ys && s == t
    decreases xs, 3
  {
    TailsDelimit([], xs, st, s);
    TailsDelimit([], ys, st, t);
    if xs == [] {
      DropPrefix("}", s, t);
    } else {
      DropPrefix(st.comma, WriteEntry(xs[0], st, EntriesTail(xs[1..], st, s)), WriteEntry(ys[0], st, EntriesTail(ys[1..], st, t)));
      FirstEntryDecides(xs, ys, st, s, t);
    }
  }

  // ------------------------------------------------------ sorting keys keeps values good

  lemma {:induction false} SortKeysKeeps(v: Json)
    requires WellFormed(v)
    ensures WellFormed(SortKeys(v))
    decreases v, 0
  {
    hide Sort, Sorted, DistinctKeys;
    match v
    case Arr(items) => SortKeysKeepsItems(items);
    case Obj(es) =>
      SortKeysKeepsEntries(es);
      SameKeysDistinct(es, SortKeysEntries(es));
      SortedEntriesAreGood(SortKeysEntries(es));
    case _ =>
  }

  lemma {:induction false} SortKeysKeepsItems(items: seq<Json>)
    requires forall i :: 0 <= i < |items| ==> WellFormed(items[i])
    ensures GoodItems(SortKeysItems(items))
    decreases items, 0
  {
    hide WellFormed, KeysSorted;
    if items != [] {
      SortKeysKeeps(items[0]);
      SortKeysKeepsItems(items[1..]);
    }
  }

  lemma {:induction false} SortKeysKeepsEntries(es: seq<Keyed<Json>>)
    requires forall i :: 0 <= i < |es| ==> WellFormed(es[i].value)
    ensures GoodValues(SortKeysEntries(es)) && |SortKeysEntries(es)| == |es|
    ensures forall i :: 0 <= i < |es| ==> SortKeysEntries(es)[i].key == es[i].key
    decreases es, 0
  {
    hide WellFormed, KeysSorted;
    if es != [] {
      SortKeysKeeps(es[0].value);
      SortKeysKeepsEntries(es[1..]);
    }
  }

  lemma SameKeysDistinct(es: seq<Keyed<Json>>, fs: seq<Keyed<Json>>)
    requires |es| == |fs| && forall i :: 0 <= i < |es| ==> fs[i].key == es[i].key
    ensures DistinctKeys(es) ==> DistinctKeys(fs)
  {
  }

  lemma SortedEntriesAreGood(es: seq<Keyed<Json>>)
    requires GoodValues(es)
    ensures GoodValues(Sort(es)) && (DistinctKeys(es) ==> DistinctKeys(Sort(es)))
  {
    hide WellFormed, KeysSorted, Sort, Sorted;
    SortSorts(es);
    SameMembers(Sort(es), es);
    forall i | 0 <= i < |Sort(es)| ensures WellFormed(Sort(es)[i].value) {
      assert Sort(es)[i] in Sort(es);
      var j :| 0 <= j < |es| && es[j] == Sort(es)[i];
    }
    if DistinctKeys(es) {
      DistinctKeysPermute(es, Sort(es));
    }
  }

  /** Values whose objects list their keys in order have equal dumps only if they are equal. */
  lemma SortedDumpsDecide(a: Json, b: Json, st: Style)
    requires WellFormed(a) && WellFormed(b) && KeysSorted(a) && KeysSorted(b) && GoodStyle(st)
    requires Dumps(a, st) == Dumps(b, st)
    ensures a == b
  {
    SortKeysOfSorted(a);
    SortKeysOfSorted(b);
    WriteDecides(a, b, st, "", "");
  }

  /** Two values have the same sorted dump exactly when they are the same up to the order of keys at every depth. */
  lemma DumpsDecides(a: Json, b: Json, st: Style)
    requires WellFormed(a) && WellFormed(b) && GoodStyle(st)
    ensures Dumps(a, st) == Dumps(b, st) <==> SortKeys(a) == SortKeys(b)
  {
    SortKeysKeeps(a);
    SortKeysKeeps(b);
    if Dumps(a, st) == Dumps(b, st) {
      WriteDecides(SortKeys(a), SortKeys(b), st, "", "");
    }
  }
}
