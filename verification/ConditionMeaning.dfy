/** What a condition says of a company's facts, apart from how it is evaluated. */
module ConditionMeaning {
  import opened Basics
  import opened Text
  import opened Numbers
  import opened Ordering
  import opened JsonText
  import opened Conditions

  // ------------------------------------------------------------------------ the facts

  ghost predicate IsList(field: string) {
    field == "cnaes" || field == "signal_types"
  }

  // The list of CNAEs as str() writes it, and nothing for an empty one.
  ghost function ListText(cs: seq<string>): string {
    if cs == [] then "" else "[" + Inner(cs) + "]"
  }

  ghost function Inner(cs: seq<string>): string
    requires cs != []
  {
    var n := |cs| - 1;
    if n == 0 then "'" + cs[0] + "'" else Inner(cs[..n]) + ", '" + cs[n] + "'"
  }

  // The text that searches look into.
  ghost function FactText(facts: Facts, field: string): string {
    if field == "cnaes" then ListText(facts.cnaes)
    else if field == "signal_types" then (if facts.signalTypes == {} then "" else facts.shown)
    else if field in facts.texts then facts.texts[field] else ""
  }

  ghost predicate SameAs(facts: Facts, field: string, v: Json) {
    if field == "cnaes" then v.Arr? && |v.items| == |facts.cnaes| && forall i :: 0 <= i < |v.items| ==> v.items[i] == Str(facts.cnaes[i])
    else if field == "signal_types" then false
    else if field in facts.texts then v == Str(facts.texts[field])
    else v == Null
  }

  // Something other than nothing, an empty text or an empty list; the signal types always are.
  ghost predicate IsThere(facts: Facts, field: string) {
    if field == "cnaes" then facts.cnaes != []
    else field == "signal_types" || (field in facts.texts && facts.texts[field] != "")
  }

  // a is below b, infinities included.
  ghost predicate Below(a: Number, b: Number) {
    match a
    case Finite(x) => (match b case Finite(y) => x < y case Infinite(negative) => !negative case _ => false)
    case Infinite(negative) => negative && (b.Finite? || b == Infinite(false))
    case _ => false
  }

  // The number a field's text writes, and the one a configured value writes.
  ghost function FactNumber(facts: Facts, field: string): Number {
    if !IsList(field) && field in facts.texts then NumberOf(facts.texts[field]) else Malformed
  }

  // str() of a configured value.
  ghost predicate Writes(v: Json, t: string) {
    match v
    case Null => t == "None"
    case Bool(b) => t == if b then "True" else "False"
    case Num(token) => t == token
    case Str(s) => t == s
    case _ => t == Dumps(v, SPACED)
  }

  ghost predicate IsNumber(v: Json, x: Number) {
    exists t :: Writes(v, t) && NumberOf(t) == x
  }

  // One of the items of a list, or the value itself.
  ghost predicate IsItem(v: Json, x: Json) {
    if v.Arr? then x in v.items else x == v
  }

  ghost function Around(a: string, needle: string, b: string): string {
    a + needle + b
  }

  // Lower-case letters for capital ones.
  ghost predicate Folded(s: string, t: string) {
    |s| == |t| && forall i :: 0 <= i < |s| ==> t[i] == if 'A' <= s[i] <= 'Z' then (s[i] as int + 32) as char else s[i]
  }

  // The item occurs in the text, whichever letters are capitals.
  ghost predicate Occurs(x: Json, text: string) {
    exists item, needle, hay, a, b :: Writes(x, item) && Folded(item, needle) && Folded(text, hay) && hay == Around(a, needle, b)
  }

  // Some code begins with the item.
  ghost predicate StartsSome(x: Json, codes: seq<string>) {
    exists prefix, i :: Writes(x, prefix) && 0 <= i < |codes| && prefix <= codes[i]
  }

  // ---------------------------------------------------------------------- conditions

  ghost predicate LeafMeans(field: string, op: string, value: Json, facts: Facts, regex: Regex) {
    match op
    case "EQ" => SameAs(facts, field, value)
    case "NE" => !SameAs(facts, field, value)
    case "GT" => exists y :: IsNumber(value, y) && Below(y, FactNumber(facts, field))
    case "GTE" => exists y :: IsNumber(value, y) && !Below(FactNumber(facts, field), y)
    case "LT" => exists y :: IsNumber(value, y) && Below(FactNumber(facts, field), y)
    case "LTE" => exists y :: IsNumber(value, y) && !Below(y, FactNumber(facts, field))
    case "IN" => value.Arr? && exists x :: x in value.items && SameAs(facts, field, x)
    case "NOT_IN" => value.Arr? && forall x :: x in value.items ==> !SameAs(facts, field, x)
    case "BETWEEN" =>
      value.Arr? && |value.items| == 2
      && (exists lo :: IsNumber(value.items[0], lo) && !Below(FactNumber(facts, field), lo))
      && (exists hi :: IsNumber(value.items[1], hi) && !Below(hi, FactNumber(facts, field)))
    case "EXISTS" => IsThere(facts, field)
    case "NOT_EXISTS" => !IsThere(facts, field)
    case "CONTAINS_KEYWORD" => exists x :: IsItem(value, x) && Occurs(x, FactText(facts, field))
    case "CONTAINS_ANY" => exists x :: IsItem(value, x) && Occurs(x, FactText(facts, field))
    case "CONTAINS_ALL" => forall x :: IsItem(value, x) ==> Occurs(x, FactText(facts, field))
    case "REGEX" => exists pattern :: Writes(value, pattern) && regex.found(pattern, FactText(facts, field))
    case "HAS_CNAE_PREFIX" => exists x :: IsItem(value, x) && StartsSome(x, facts.cnaes)
    case "HAS_SIGNAL" => exists t :: IsItem(value, Str(t)) && t in facts.signalTypes
    case _ => false
  }

  ghost predicate Names(c: Json, key: string, v: Json) {
    c.Obj? && exists i :: 0 <= i < |c.entries| && c.entries[i] == Keyed(key, v)
  }

  ghost predicate SimpleMeans(c: Json, facts: Facts, regex: Regex) {
    exists field, op, value ::
      Names(c, "field", Str(field)) && Names(c, "op", Str(op)) && Names(c, "value", value) && LeafMeans(field, op, value, facts, regex)
  }

  /** The meaning of a condition: every child of "all", some child of "any", not the child of "not", or its operator. */
  ghost predicate Means(c: Json, facts: Facts, regex: Regex)
    decreases c
  {
    c.Obj? &&
    if |c.entries| != 1 then SimpleMeans(c, facts, regex)
    else
      var children := c.entries[0].value;
      match c.entries[0].key
      case "all" => children.Arr? && forall i :: 0 <= i < |children.items| ==> Means(children.items[i], facts, regex)
      case "any" => children.Arr? && exists i :: 0 <= i < |children.items| && Means(children.items[i], facts, regex)
      case "not" => !Means(children, facts, regex)
      case _ => false
  }

  // ------------------------------------------------------------------------- proofs

  lemma WritesItemText(v: Json)
    ensures forall t :: Writes(v, t) <==> t == ItemText(v)
  {
  }

  lemma NumberIs(v: Json)
    ensures forall x :: IsNumber(v, x) <==> x == NumberOf(ItemText(v))
  {
    hide NumberOf, Dumps;
    WritesItemText(v);
  }

  lemma {:induction false} QuotedLast(cs: seq<string>)
    requires cs != []
    ensures Quoted(cs) == Inner(cs)
  {
    if |cs| > 1 {
      QuotedInit(cs);
      QuotedLast(cs[..|cs| - 1]);
    }
  }

  lemma {:induction false} QuotedInit(cs: seq<string>)
    requires |cs| > 1
    ensures Quoted(cs) == Quoted(cs[..|cs| - 1]) + ", '" + cs[|cs| - 1] + "'"
  {
    var n := |cs| - 1;
    if n == 1 {
      assert cs[1..] == [cs[1]] && cs[..1] == [cs[0]];
    } else {
      QuotedInit(cs[1..]);
      assert cs[1..][..n - 1] == cs[..n][1..];
    }
  }

  lemma ShownIsText(field: string, facts: Facts)
    ensures Shown(facts.Get(field), facts) == FactText(facts, field)
  {
    if field == "cnaes" && facts.cnaes != [] {
      QuotedLast(facts.cnaes);
    }
  }

  lemma EqualIsSame(field: string, facts: Facts, v: Json)
    ensures Equal(facts.Get(field), v) <==> SameAs(facts, field, v)
    ensures Present(facts.Get(field)) <==> IsThere(facts, field)
    ensures NumberOfValue(facts.Get(field)) == FactNumber(facts, field)
  {
    hide NumberOf;
  }

  lemma AtMostIsNotAbove(a: Number, b: Number)
    requires a.Comparable() && b.Comparable()
    ensures AtMost(a, b) <==> !Below(b, a)
  {
  }

  lemma FoldedIsLower(s: string)
    ensures forall t :: Folded(s, t) <==> t == Lower(s)
  {
    hide Lower;
    forall t ensures Folded(s, t) <==> t == Lower(s) {
      assert forall i :: 0 <= i < |s| ==> Lower(s)[i] == if 'A' <= s[i] <= 'Z' then (s[i] as int + 32) as char else s[i];
    }
  }

  lemma PartIsAround(needle: string, hay: string)
    ensures IsPart(needle, hay) <==> exists a, b :: hay == Around(a, needle, b)
  {
    if IsPart(needle, hay) {
      var i :| 0 <= i <= |hay| && StartsAt(needle, hay, i);
      assert hay == Around(hay[..i], needle, hay[i + |needle|..]);
    }
    if a, b :| hay == Around(a, needle, b) {
      assert StartsAt(needle, hay, |a|);
    }
  }

  lemma OccursIsPart(x: Json, text: string)
    ensures Occurs(x, text) <==> IsPart(Lower(ItemText(x)), Lower(text))
  {
    hide Lower, Writes, ItemText, Folded, IsPart, Around;
    WritesItemText(x);
    FoldedIsLower(ItemText(x));
    FoldedIsLower(text);
    PartIsAround(Lower(ItemText(x)), Lower(text));
    if IsPart(Lower(ItemText(x)), Lower(text)) {
      var a, b :| Lower(text) == Around(a, Lower(ItemText(x)), b);
      assert Writes(x, ItemText(x)) && Folded(ItemText(x), Lower(ItemText(x))) && Folded(text, Lower(text));
    }
  }

  lemma ItemsAre(v: Json)
    ensures forall x :: IsItem(v, x) <==> x in ItemsOf(v)
  {
  }

  lemma ContainsMeans(field: string, op: string, value: Json, facts: Facts)
    requires op in CONTAINS
    ensures Contains(op, Lower(Shown(facts.Get(field), facts)), ItemsOf(value)) <==>
      if op == "CONTAINS_ALL" then forall x :: IsItem(value, x) ==> Occurs(x, FactText(facts, field))
      else exists x :: IsItem(value, x) && Occurs(x, FactText(facts, field))
  {
    hide Lower, ItemText, Occurs, IsItem, Shown, FactText, IsPart;
    ShownIsText(field, facts);
    ItemsAre(value);
    var text, items := FactText(facts, field), ItemsOf(value);
    forall x ensures Occurs(x, text) <==> IsPart(Lower(ItemText(x)), Lower(text)) {
      OccursIsPart(x, text);
    }
    if x :| IsItem(value, x) && Occurs(x, text) {
      var i :| 0 <= i < |items| && items[i] == x;
    }
    assert forall i :: 0 <= i < |items| ==> IsItem(value, items[i]);
  }

  lemma PrefixMeans(value: Json, codes: seq<string>)
    ensures HasPrefix(codes, ItemsOf(value)) <==> exists x :: IsItem(value, x) && StartsSome(x, codes)
  {
    hide ItemText, IsItem, Writes;
    ItemsAre(value);
    var items := ItemsOf(value);
    forall x, t ensures Writes(x, t) <==> t == ItemText(x) {
      WritesItemText(x);
    }
    if HasPrefix(codes, items) {
      var i, j :| 0 <= i < |codes| && 0 <= j < |items| && ItemText(items[j]) <= codes[i];
      assert Writes(items[j], ItemText(items[j])) && ItemText(items[j]) <= codes[i];
      assert StartsSome(items[j], codes) && IsItem(value, items[j]);
    }
    if x :| IsItem(value, x) && StartsSome(x, codes) {
      var j :| 0 <= j < |items| && items[j] == x;
      var prefix, i :| Writes(x, prefix) && 0 <= i < |codes| && prefix <= codes[i];
      assert ItemText(items[j]) <= codes[i];
    }
  }

  lemma {:induction false} HasSignalMeans(types: set<string>, items: seq<Json>)
    requires HasSignal(types, items).Ok?
    ensures HasSignal(types, items).value <==> exists t :: Str(t) in items && t in types
  {
    if items != [] {
      assert items == [items[0]] + items[1..];
      if items[0].Str? && items[0].s in types {
        assert Str(items[0].s) in items;
      } else {
        HasSignalMeans(types, items[1..]);
      }
    }
  }

  lemma MemberMeans(field: string, facts: Facts, items: seq<Json>)
    ensures InItems(facts.Get(field), items) <==> exists x :: x in items && SameAs(facts, field, x)
  {
    hide Equal, SameAs;
    forall x ensures Equal(facts.Get(field), x) <==> SameAs(facts, field, x) {
      EqualIsSame(field, facts, x);
    }
    if x :| x in items && SameAs(facts, field, x) {
      var i :| 0 <= i < |items| && items[i] == x;
      assert Equal(facts.Get(field), items[i]);
    }
  }

  lemma OrderingMeans(field: string, op: string, value: Json, facts: Facts, regex: Regex)
    requires op in ORDERINGS && Simple(field, op, value, facts, regex).Ok?
    ensures Simple(field, op, value, facts, regex).value <==> LeafMeans(field, op, value, facts, regex)
  {
    hide NumberOf, ItemText, IsNumber, FactNumber, Below, AtMost, NumberOfValue, Equal, Present;
    EqualIsSame(field, facts, Null);
    NumberIs(value);
    var x, y := FactNumber(facts, field), NumberOf(ItemText(value));
    AtMostIsNotAbove(x, y);
    AtMostIsNotAbove(y, x);
    assert IsNumber(value, y);
  }

  lemma BetweenMeans(field: string, value: Json, facts: Facts, regex: Regex)
    requires Simple(field, "BETWEEN", value, facts, regex).Ok?
    ensures Simple(field, "BETWEEN", value, facts, regex).value <==> LeafMeans(field, "BETWEEN", value, facts, regex)
  {
    hide NumberOf, ItemText, IsNumber, FactNumber, Below, AtMost, NumberOfValue, Equal, Present;
    EqualIsSame(field, facts, Null);
    var x := FactNumber(facts, field);
    var lo, hi := NumberOf(ItemText(value.items[0])), NumberOf(ItemText(value.items[1]));
    NumberIs(value.items[0]);
    NumberIs(value.items[1]);
    assert IsNumber(value.items[0], lo) && IsNumber(value.items[1], hi);
    AtMostIsNotAbove(lo, x);
    if AtMost(lo, x) {
      AtMostIsNotAbove(x, hi);
    }
  }

  lemma RegexMeans(field: string, value: Json, facts: Facts, regex: Regex)
    requires Simple(field, "REGEX", value, facts, regex).Ok?
    ensures Simple(field, "REGEX", value, facts, regex).value <==> LeafMeans(field, "REGEX", value, facts, regex)
  {
    hide ItemText, Shown, FactText, Writes, NumberOf, Equal, Present;
    ShownIsText(field, facts);
    WritesItemText(value);
    assert Writes(value, ItemText(value));
  }

  // What the validator leaves open for a simple condition: the operators, and a list for IN and NOT_IN.
  ghost predicate Wellformed(op: string, value: Json) {
    op in COMPARISONS + CONTAINS + OTHERS && (op == "IN" || op == "NOT_IN" ==> value.Arr?)
  }

  lemma SimpleIsLeafMeans(field: string, op: string, value: Json, facts: Facts, regex: Regex)
    requires Wellformed(op, value) && Simple(field, op, value, facts, regex).Ok?
    ensures Simple(field, op, value, facts, regex).value <==> LeafMeans(field, op, value, facts, regex)
  {
    hide NumberOf, ItemText, IsNumber, FactNumber, Below, AtMost, NumberOfValue, Equal, Present, SameAs, IsThere, Lower, Shown, FactText,
         Contains, HasPrefix, HasSignal, InItems, Occurs, StartsSome, IsItem, Writes, Between, Comparison, Compares;
    EqualIsSame(field, facts, value);
    if op in ORDERINGS {
      OrderingMeans(field, op, value, facts, regex);
    } else if op == "BETWEEN" {
      BetweenMeans(field, value, facts, regex);
    } else if op == "REGEX" {
      RegexMeans(field, value, facts, regex);
    } else if op in CONTAINS {
      ContainsMeans(field, op, value, facts);
    } else if op == "HAS_CNAE_PREFIX" {
      PrefixMeans(value, facts.cnaes);
    } else if op == "HAS_SIGNAL" {
      ItemsAre(value);
      HasSignalMeans(facts.signalTypes, ItemsOf(value));
    } else if op == "IN" || op == "NOT_IN" {
      MemberMeans(field, facts, value.items);
    }
  }

  lemma EntryNames(c: Json, key: string)
    requires c.Obj?
    ensures Entry(c, key).Some? ==> Names(c, key, Entry(c, key).value)
  {
    if Entry(c, key).Some? {
      var i :| 0 <= i < |c.entries| && c.entries[i].value == Entry(c, key).value && c.entries[i].key == key;
      assert c.entries[i] == Keyed(key, Entry(c, key).value);
    }
  }

  // Three entries with three different keys: each key is named once.
  lemma NamedOnce(c: Json, key: string, v: Json, w: Json)
    requires c.Obj? && |c.entries| == 3 && Has(c, "field") && Has(c, "op") && Has(c, "value")
    requires key in {"field", "op", "value"} && Names(c, key, v) && Names(c, key, w)
    ensures v == w
  {
    hide EntryIn;
    EntryNames(c, "field");
    EntryNames(c, "op");
    EntryNames(c, "value");
    var i :| 0 <= i < 3 && c.entries[i].key == "field";
    var j :| 0 <= j < 3 && c.entries[j].key == "op";
    var k :| 0 <= k < 3 && c.entries[k].key == "value";
    var x :| 0 <= x < 3 && c.entries[x] == Keyed(key, v);
    var y :| 0 <= y < 3 && c.entries[y] == Keyed(key, w);
  }

  lemma LeafIsMeans(c: Json, facts: Facts, regex: Regex)
    requires c.Obj? && CheckLeaf(c, regex).Ok? && Leaf(c, facts, regex).Ok?
    ensures Leaf(c, facts, regex).value <==> SimpleMeans(c, facts, regex)
  {
    hide EntryIn, Simple, LeafMeans, Names, ItemText;
    var field, op, value := Entry(c, "field").value.s, Entry(c, "op").value.s, Entry(c, "value").value;
    EntryNames(c, "field");
    EntryNames(c, "op");
    EntryNames(c, "value");
    SimpleIsLeafMeans(field, op, value, facts, regex);
    forall f, o, v | Names(c, "field", Str(f)) && Names(c, "op", Str(o)) && Names(c, "value", v)
      ensures f == field && o == op && v == value
    {
      NamedOnce(c, "field", Str(f), Str(field));
      NamedOnce(c, "op", Str(o), Str(op));
      NamedOnce(c, "value", v, value);
    }
  }

  // A compound condition is its one entry.
  lemma CompoundIs(c: Json)
    requires IsCompound(c) && Alone(c)
    ensures c.entries[0].key == Operation(c) && Entry(c, Operation(c)) == Some(c.entries[0].value)
  {
    assert c.entries[1..] == [];
  }

  /** A condition that passed the validator evaluates, where it does, to what it means. */
  lemma {:induction false} CheckedMeans(c: Json, facts: Facts, regex: Regex, depth: nat)
    requires Check(c, regex, depth).Ok? && Evaluate(c, facts, regex, depth).Ok?
    ensures Evaluate(c, facts, regex, depth).value <==> Means(c, facts, regex)
    decreases c, 0
  {
    hide CheckLeaf, Leaf, EntryIn, SimpleMeans;
    if IsCompound(c) {
      CompoundIs(c);
      var children := c.entries[0].value;
      if Operation(c) == "not" {
        CheckedMeans(children, facts, regex, depth + 1);
      } else {
        EachMeans(children.items, facts, regex, depth + 1);
      }
    } else {
      LeafHasThree(c, regex);
      LeafIsMeans(c, facts, regex);
    }
  }

  lemma LeafHasThree(c: Json, regex: Regex)
    requires c.Obj? && CheckLeaf(c, regex).Ok?
    ensures |c.entries| == 3
  {
  }

  lemma {:induction false} EachMeans(cs: seq<Json>, facts: Facts, regex: Regex, depth: nat)
    requires CheckEach(cs, regex, depth).Ok? && EvaluateEach(cs, facts, regex, depth).Ok?
    ensures var bs := EvaluateEach(cs, facts, regex, depth).value;
      && (false !in bs <==> forall i :: 0 <= i < |cs| ==> Means(cs[i], facts, regex))
      && (true in bs <==> exists i :: 0 <= i < |cs| && Means(cs[i], facts, regex))
    decreases cs, 0
  {
    hide Check, Evaluate, Means;
    if cs != [] {
      CheckedMeans(cs[0], facts, regex, depth);
      EachMeans(cs[1..], facts, regex, depth);
      var bs, rest := EvaluateEach(cs, facts, regex, depth).value, EvaluateEach(cs[1..], facts, regex, depth).value;
      assert bs == [Evaluate(cs[0], facts, regex, depth).value] + rest;
      assert forall i :: 1 <= i < |cs| ==> cs[i] == cs[1..][i - 1];
      assert forall i :: 0 <= i < |cs[1..]| ==> cs[1..][i] == cs[i + 1];
    }
  }

  // ---------------------------------------------------------------- what is accepted

  ghost predicate IsField(field: string) {
    field in {"company_type", "registration_status", "commercial_status", "state", "municipality_code", "size_code", "segment",
              "primary_cnae", "cnaes", "signal_types"}
  }

  // The operators, with what each needs of its value.
  ghost predicate Usable(op: string, value: Json, regex: Regex) {
    match op
    case "BETWEEN" => value.Arr? && |value.items| == 2
    case "IN" => value.Arr?
    case "NOT_IN" => value.Arr?
    case "REGEX" => exists pattern :: Writes(value, pattern) && |pattern| <= 200 && regex.compiles(pattern)
    case _ => op in {"EQ", "NE", "GT", "GTE", "LT", "LTE", "EXISTS", "NOT_EXISTS", "CONTAINS_KEYWORD", "CONTAINS_ANY", "CONTAINS_ALL",
                     "HAS_CNAE_PREFIX", "HAS_SIGNAL"}
  }

  // Exactly a field, an operator and a value that it can use.
  ghost predicate IsSimple(c: Json, regex: Regex) {
    c.Obj? && |c.entries| == 3
    && exists field, op, value ::
         Names(c, "field", Str(field)) && Names(c, "op", Str(op)) && Names(c, "value", value) && IsField(field) && Usable(op, value, regex)
  }

  /** A tree of such conditions: one operation with its children at each node, at most five nodes above any other. */
  ghost predicate IsCondition(c: Json, regex: Regex, depth: nat)
    decreases c
  {
    depth <= 5 && c.Obj? &&
    if |c.entries| != 1 then IsSimple(c, regex)
    else
      var children := c.entries[0].value;
      if c.entries[0].key == "not" then IsCondition(children, regex, depth + 1)
      else
        (c.entries[0].key == "all" || c.entries[0].key == "any") && children.Arr? && |children.items| > 0
        && forall i :: 0 <= i < |children.items| ==> IsCondition(children.items[i], regex, depth + 1)
  }

  lemma NamesEntry(c: Json, key: string, v: Json)
    requires Names(c, key, v)
    ensures Has(c, key)
  {
    var i :| 0 <= i < |c.entries| && c.entries[i] == Keyed(key, v);
    assert c.entries[i].key == key;
  }

  // Three entries with three different keys leave no room for a fourth one.
  lemma KeysAreThree(c: Json)
    requires c.Obj? && |c.entries| == 3 && Has(c, "field") && Has(c, "op") && Has(c, "value")
    ensures forall x :: 0 <= x < 3 ==> c.entries[x].key in {"field", "op", "value"}
  {
    hide EntryIn;
    EntryNames(c, "field");
    EntryNames(c, "op");
    EntryNames(c, "value");
    var i :| 0 <= i < 3 && c.entries[i].key == "field";
    var j :| 0 <= j < 3 && c.entries[j].key == "op";
    var k :| 0 <= k < 3 && c.entries[k].key == "value";
    forall x | 0 <= x < 3 ensures c.entries[x].key in {"field", "op", "value"} {
      assert x == i || x == j || x == k;
    }
  }

  lemma NoOtherKey(c: Json, key: string)
    requires c.Obj? && |c.entries| == 3 && Has(c, "field") && Has(c, "op") && Has(c, "value")
    requires key !in {"field", "op", "value"}
    ensures !Has(c, key)
  {
    hide EntryIn;
    KeysAreThree(c);
  }

  lemma SimpleIsNoCompound(c: Json)
    requires c.Obj? && |c.entries| == 3 && Has(c, "field") && Has(c, "op") && Has(c, "value")
    ensures !IsCompound(c)
  {
    hide Has;
    NoOtherKey(c, "all");
    NoOtherKey(c, "any");
    NoOtherKey(c, "not");
  }

  lemma LeafChecksExactly(c: Json, regex: Regex)
    requires c.Obj?
    ensures CheckLeaf(c, regex).Ok? <==> IsSimple(c, regex)
  {
    hide EntryIn, ItemText, Writes, Usable, IsField;
    if |c.entries| == 3 && Has(c, "field") && Has(c, "op") && Has(c, "value") {
      var field, op, value := Entry(c, "field").value, Entry(c, "op").value, Entry(c, "value").value;
      EntryNames(c, "field");
      EntryNames(c, "op");
      EntryNames(c, "value");
      forall v | Names(c, "field", v) ensures v == field {
        NamedOnce(c, "field", v, field);
      }
      forall v | Names(c, "op", v) ensures v == op {
        NamedOnce(c, "op", v, op);
      }
      forall v | Names(c, "value", v) ensures v == value {
        NamedOnce(c, "value", v, value);
      }
      if field.Str? && op.Str? {
        UsableExactly(field.s, op.s, value, regex);
      }
    } else {
      SimpleHasEntries(c, regex);
    }
  }

  lemma UsableExactly(field: string, op: string, value: Json, regex: Regex)
    ensures field in ALLOWED_FIELDS <==> IsField(field)
    ensures Usable(op, value, regex) <==>
      && op in COMPARISONS + CONTAINS + OTHERS
      && (op == "BETWEEN" ==> value.Arr? && |value.items| == 2)
      && (op == "IN" || op == "NOT_IN" ==> value.Arr?)
      && (op == "REGEX" ==> |ItemText(value)| <= 200 && regex.compiles(ItemText(value)))
  {
    hide ItemText, Writes;
    WritesItemText(value);
  }

  /** The validator accepts exactly the trees of usable conditions. */
  lemma {:induction false} AcceptsExactly(c: Json, regex: Regex, depth: nat)
    ensures Check(c, regex, depth).Ok? <==> IsCondition(c, regex, depth)
    decreases c, 0
  {
    hide CheckLeaf, EntryIn, IsSimple;
    if depth <= MAX_DEPTH && c.Obj? && c.entries != [] {
      if IsCompound(c) {
        if Alone(c) {
          CompoundIs(c);
          var children := c.entries[0].value;
          if Operation(c) == "not" {
            AcceptsExactly(children, regex, depth + 1);
          } else if children.Arr? {
            EachAcceptsExactly(children.items, regex, depth + 1);
          }
        } else {
          CompoundIsNotSimple(c, regex);
        }
      } else {
        LeafChecksExactly(c, regex);
        OneEntryIsCompound(c);
        if CheckLeaf(c, regex).Ok? {
          LeafHasThree(c, regex);
        }
      }
    } else if c.Obj? && c.entries == [] {
      NothingIsSimple(c, regex);
    }
  }

  lemma NothingIsSimple(c: Json, regex: Regex)
    requires c.Obj? && c.entries == []
    ensures !IsSimple(c, regex)
  {
  }

  lemma OneEntryIsCompound(c: Json)
    ensures c.Obj? && |c.entries| == 1 && c.entries[0].key in {"all", "any", "not"} ==> IsCompound(c)
  {
  }

  lemma SimpleHasEntries(c: Json, regex: Regex)
    ensures IsSimple(c, regex) ==> c.Obj? && |c.entries| == 3 && Has(c, "field") && Has(c, "op") && Has(c, "value")
  {
    hide EntryIn, Usable, IsField;
    if IsSimple(c, regex) {
      var f, o, v :| Names(c, "field", Str(f)) && Names(c, "op", Str(o)) && Names(c, "value", v) && IsField(f) && Usable(o, v, regex);
      NamesEntry(c, "field", Str(f));
      NamesEntry(c, "op", Str(o));
      NamesEntry(c, "value", v);
    }
  }

  lemma CompoundIsNotSimple(c: Json, regex: Regex)
    requires c.Obj? && IsCompound(c)
    ensures !IsSimple(c, regex)
  {
    hide EntryIn, IsSimple;
    SimpleHasEntries(c, regex);
    if |c.entries| == 3 && Has(c, "field") && Has(c, "op") && Has(c, "value") {
      SimpleIsNoCompound(c);
    }
  }

  lemma {:induction false} EachAcceptsExactly(cs: seq<Json>, regex: Regex, depth: nat)
    ensures CheckEach(cs, regex, depth).Ok? <==> forall i :: 0 <= i < |cs| ==> IsCondition(cs[i], regex, depth)
    decreases cs, 0
  {
    hide Check, IsCondition;
    if cs != [] {
      AcceptsExactly(cs[0], regex, depth);
      EachAcceptsExactly(cs[1..], regex, depth);
      assert forall i :: 1 <= i < |cs| ==> cs[i] == cs[1..][i - 1];
      assert forall i :: 0 <= i < |cs[1..]| ==> cs[1..][i] == cs[i + 1];
    }
  }
}
