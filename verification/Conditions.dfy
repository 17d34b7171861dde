/**
 The condition trees of scoring rules: the evaluator of the engine and, apart from it, the
 validator of the rule set services.  Facts are texts, the CNAE list and the signal types.
 */
module Conditions {
  import opened Basics
  import opened Text
  import opened Numbers
  import opened Ordering
  import opened JsonText

  const ALLOWED_FIELDS: set<string> :=
    {"company_type", "registration_status", "commercial_status", "state", "municipality_code", "size_code", "segment",
     "primary_cnae", "cnaes", "signal_types"}

  const COMPARISONS: set<string> := {"EQ", "NE", "GT", "GTE", "LT", "LTE"}
  const ORDERINGS: set<string> := {"GT", "GTE", "LT", "LTE"}
  const CONTAINS: set<string> := {"CONTAINS_KEYWORD", "CONTAINS_ANY", "CONTAINS_ALL"}
  const OTHERS: set<string> := {"IN", "NOT_IN", "BETWEEN", "EXISTS", "NOT_EXISTS", "REGEX", "HAS_CNAE_PREFIX", "HAS_SIGNAL"}

  const MAX_DEPTH: nat := 5

  // A configuration error, an exception the code does not turn into one, or a row the database refuses.
  datatype Fault = Misconfigured | TypeFault | Refused

  // What a field of the facts can hold.
  datatype Value = Nothing | Text(text: string) | Codes(codes: seq<string>) | Types(types: set<string>)

  // shown is the text str() gives for the set of signal types.
  datatype Facts = Facts(texts: map<string, string>, cnaes: seq<string>, signalTypes: set<string>, shown: string)
  {
    function Get(field: string): Value {
      if field == "cnaes" then Codes(cnaes)
      else if field == "signal_types" then Types(signalTypes)
      else if field in texts then Text(texts[field])
      else Nothing
    }
  }

  // Regular expressions are given: which patterns compile and which texts they are found in.
  datatype Regex = Regex(compiles: string -> bool, found: (string, string) -> bool)

  // ---------------------------------------------------------------- reading conditions

  function Entry(c: Json, key: string): Option<Json>
    requires c.Obj?
    ensures Entry(c, key).Some? ==> Entry(c, key).value < c
  {
    EntryIn(c.entries, key)
  }

  function EntryIn(es: seq<Keyed<Json>>, key: string): (r: Option<Json>)
    ensures r.Some? ==> exists i :: 0 <= i < |es| && es[i].value == r.value && es[i].key == key
    ensures r.None? <==> forall i :: 0 <= i < |es| ==> es[i].key != key
  {
    if es == [] then None
    else if es[0].key == key then Some(es[0].value)
    else
      var r := EntryIn(es[1..], key);
      assert forall i :: 1 <= i < |es| ==> es[i] == es[1..][i - 1];
      assert r.Some? ==> exists i :: 0 <= i < |es| && es[i].value == r.value && es[i].key == key by {
        if r.Some? {
          var i :| 0 <= i < |es[1..]| && es[1..][i].value == r.value && es[1..][i].key == key;
          assert es[i + 1] == es[1..][i];
        }
      }
      r
  }

  predicate Has(c: Json, key: string) {
    c.Obj? && Entry(c, key).Some?
  }

  predicate IsCompound(c: Json) {
    Has(c, "all") || Has(c, "any") || Has(c, "not")
  }

  // Exactly one key, one of the three.
  function Operation(c: Json): string
    requires IsCompound(c)
  {
    if Has(c, "all") then "all" else if Has(c, "any") then "any" else "not"
  }

  predicate Alone(c: Json)
    requires IsCompound(c)
  {
    |c.entries| == 1
  }

  function ItemsOf(v: Json): seq<Json> {
    if v.Arr? then v.items else [v]
  }

  // ------------------------------------------------------------------- Python's values

  predicate Equal(a: Value, v: Json) {
    match a
    case Nothing => v == Null
    case Text(s) => v == Str(s)
    case Codes(cs) => v.Arr? && |v.items| == |cs| && forall i :: 0 <= i < |cs| ==> v.items[i] == Str(cs[i])
    case Types(_) => false
  }

  predicate StartsAt(needle: string, hay: string, i: nat) {
    i + |needle| <= |hay| && hay[i..i + |needle|] == needle
  }

  predicate IsPart(needle: string, hay: string) {
    exists i :: 0 <= i <= |hay| && StartsAt(needle, hay, i)
  }

  // str(item)
  function ItemText(v: Json): string {
    match v
    case Str(s) => s
    case Num(token) => token
    case Bool(b) => if b then "True" else "False"
    case Null => "None"
    case _ => Dumps(v, SPACED)
  }

  function Quoted(cs: seq<string>): string {
    if cs == [] then "" else "'" + cs[0] + "'" + (if |cs| == 1 then "" else ", " + Quoted(cs[1..]))
  }

  // str(actual or "")
  function Shown(a: Value, facts: Facts): string {
    match a
    case Nothing => ""
    case Text(s) => s
    case Codes(cs) => if cs == [] then "" else "[" + Quoted(cs) + "]"
    case Types(ts) => if ts == {} then "" else facts.shown
  }

  // actual not in (None, "", [], {}): an empty set equals none of them
  predicate Present(a: Value) {
    a != Nothing && a != Text("") && a != Codes([])
  }

  // `_decimal`: str() of anything but a text is no number
  function NumberOfValue(a: Value): Number {
    match a case Text(s) => NumberOf(s) case _ => Malformed
  }

  // ------------------------------------------------------------------ simple conditions

  predicate Compares(op: string, a: Number, b: Number) {
    if op == "GT" then !AtMost(a, b) else if op == "GTE" then AtMost(b, a)
    else if op == "LT" then !AtMost(b, a) else AtMost(a, b)
  }

  // Both operands are converted first; then comparing a NaN raises.
  function Comparison(a: Number, b: Number, outcome: bool): Result<bool, Fault> {
    if a.Malformed? || b.Malformed? then Err(Misconfigured)
    else if a.NotANumber? || b.NotANumber? then Err(TypeFault)
    else Ok(outcome)
  }

  predicate InItems(a: Value, items: seq<Json>) {
    exists i :: 0 <= i < |items| && Equal(a, items[i])
  }

  // `actual in expected`
  function Member(a: Value, expected: Json): Result<bool, Fault> {
    match expected
    case Arr(items) => Ok(InItems(a, items))
    case Str(s) => if a.Text? then Ok(IsPart(a.text, s)) else Err(TypeFault)
    case Obj(_) => if a.Text? then Ok(Has(expected, a.text)) else if a.Nothing? then Ok(false) else Err(TypeFault)
    case _ => Err(TypeFault)
  }

  predicate Contains(op: string, hay: string, needles: seq<Json>) {
    if op == "CONTAINS_ALL" then forall i :: 0 <= i < |needles| ==> IsPart(Lower(ItemText(needles[i])), hay)
    else exists i :: 0 <= i < |needles| && IsPart(Lower(ItemText(needles[i])), hay)
  }

  predicate HasPrefix(codes: seq<string>, prefixes: seq<Json>) {
    exists i, j :: 0 <= i < |codes| && 0 <= j < |prefixes| && ItemText(prefixes[j]) <= codes[i]
  }

  predicate Hashable(v: Json) {
    !v.Arr? && !v.Obj?
  }

  // any() stops at the first signal found, so only items before it can fail.
  function HasSignal(types: set<string>, items: seq<Json>): Result<bool, Fault> {
    if items == [] then Ok(false)
    else if !Hashable(items[0]) then Err(TypeFault)
    else if items[0].Str? && items[0].s in types then Ok(true)
    else HasSignal(types, items[1..])
  }

  // lo <= x <= hi, whose upper limit is not even read when the lower one fails.
  function Between(x: Number, expected: Json): Result<bool, Fault> {
    if !expected.Arr? || |expected.items| != 2 then Err(Misconfigured)
    else
      var lo, hi := NumberOf(ItemText(expected.items[0])), NumberOf(ItemText(expected.items[1]));
      match Comparison(lo, x, AtMost(lo, x))
      case Ok(true) => Comparison(x, hi, AtMost(x, hi))
      case other => other
  }

  function Simple(field: string, op: string, expected: Json, facts: Facts, regex: Regex): Result<bool, Fault> {
    var a := facts.Get(field);
    if op == "EQ" then Ok(Equal(a, expected))
    else if op == "NE" then Ok(!Equal(a, expected))
    else if op in ORDERINGS then
      var x, y := NumberOfValue(a), NumberOf(ItemText(expected));
      Comparison(x, y, Compares(op, x, y))
    else if op == "IN" then Member(a, expected)
    else if op == "NOT_IN" then (match Member(a, expected) case Ok(b) => Ok(!b) case Err(e) => Err(e))
    else if op == "BETWEEN" then Between(NumberOfValue(a), expected)
    else if op == "EXISTS" then Ok(Present(a))
    else if op == "NOT_EXISTS" then Ok(!Present(a))
    else if op in CONTAINS then Ok(Contains(op, Lower(Shown(a, facts)), ItemsOf(expected)))
    else if op == "REGEX" then
      if |ItemText(expected)| > 200 || |Shown(a, facts)| > 5000 then Err(Misconfigured)
      else if !regex.compiles(ItemText(expected)) then Err(TypeFault)
      else Ok(regex.found(ItemText(expected), Shown(a, facts)))
    else if op == "HAS_CNAE_PREFIX" then Ok(HasPrefix(facts.cnaes, ItemsOf(expected)))
    else if op == "HAS_SIGNAL" then HasSignal(facts.signalTypes, ItemsOf(expected))
    else Err(Misconfigured)
  }

  function OrNull(v: Option<Json>): Json {
    match v case Some(x) => x case None => Null
  }

  function Leaf(c: Json, facts: Facts, regex: Regex): Result<bool, Fault>
    requires c.Obj?
  {
    var field, op, expected := OrNull(Entry(c, "field")), OrNull(Entry(c, "op")), OrNull(Entry(c, "value"));
    if !Hashable(field) then Err(TypeFault)
    else if !field.Str? || field.s !in ALLOWED_FIELDS then Err(Misconfigured)
    else if !Hashable(op) then Err(TypeFault)
    else if !op.Str? then Err(Misconfigured)
    else Simple(field.s, op.s, expected, facts, regex)
  }

  // ------------------------------------------------------------------ the evaluator

  /** `condition_matches`: every child is evaluated, there is no short circuit. */
  function Evaluate(c: Json, facts: Facts, regex: Regex, depth: nat): Result<bool, Fault>
    decreases c, 0
  {
    if depth > MAX_DEPTH || !c.Obj? || c.entries == [] then Err(Misconfigured)
    else if IsCompound(c) then
      if !Alone(c) then Err(Misconfigured)
      else
        var children := Entry(c, Operation(c)).value;
        if Operation(c) == "not" then
          match Evaluate(children, facts, regex, depth + 1) case Ok(b) => Ok(!b) case Err(e) => Err(e)
        else if !children.Arr? || children.items == [] then Err(Misconfigured)
        else
          match EvaluateEach(children.items, facts, regex, depth + 1)
          case Err(e) => Err(e)
          case Ok(bs) => Ok(if Operation(c) == "all" then false !in bs else true in bs)
    else Leaf(c, facts, regex)
  }

  function EvaluateEach(cs: seq<Json>, facts: Facts, regex: Regex, depth: nat): (r: Result<seq<bool>, Fault>)
    decreases cs, 0
  {
    if cs == [] then Ok([])
    else
      match Evaluate(cs[0], facts, regex, depth)
      case Err(e) => Err(e)
      case Ok(b) =>
        match EvaluateEach(cs[1..], facts, regex, depth) case Err(e) => Err(e) case Ok(bs) => Ok([b] + bs)
  }

  // ------------------------------------------------------------------- the validator

  function CheckLeaf(c: Json, regex: Regex): Result<(), Fault>
    requires c.Obj?
  {
    if !(|c.entries| == 3 && Has(c, "field") && Has(c, "op") && Has(c, "value")) then Err(Misconfigured)
    else
      var field, op, value := Entry(c, "field").value, Entry(c, "op").value, Entry(c, "value").value;
      if !Hashable(field) then Err(TypeFault)
      else if !field.Str? || field.s !in ALLOWED_FIELDS then Err(Misconfigured)
      else if !Hashable(op) then Err(TypeFault)
      else if !op.Str? || op.s !in COMPARISONS + CONTAINS + OTHERS then Err(Misconfigured)
      else if op.s == "BETWEEN" && (!value.Arr? || |value.items| != 2) then Err(Misconfigured)
      else if (op.s == "IN" || op.s == "NOT_IN") && !value.Arr? then Err(Misconfigured)
      else if op.s == "REGEX" && (|ItemText(value)| > 200 || !regex.compiles(ItemText(value))) then Err(Misconfigured)
      else Ok(())
  }

  /** `_validate_condition` */
  function Check(c: Json, regex: Regex, depth: nat): Result<(), Fault>
    decreases c, 0
  {
    if depth > MAX_DEPTH || !c.Obj? || c.entries == [] then Err(Misconfigured)
    else if IsCompound(c) then
      if !Alone(c) then Err(Misconfigured)
      else
        var children := Entry(c, Operation(c)).value;
        if Operation(c) == "not" then Check(children, regex, depth + 1)
        else if !children.Arr? || children.items == [] then Err(Misconfigured)
        else CheckEach(children.items, regex, depth + 1)
    else CheckLeaf(c, regex)
  }

  function CheckEach(cs: seq<Json>, regex: Regex, depth: nat): Result<(), Fault>
    decreases cs, 0
  {
    if cs == [] then Ok(())
    else match Check(cs[0], regex, depth) case Err(e) => Err(e) case Ok(_) => CheckEach(cs[1..], regex, depth)
  }

  // ------------------------------------------------- what the validator promises the engine

  // Every value in the tree is a scalar or a list of scalars.
  predicate Scalars(v: Json) {
    Hashable(v) || (v.Arr? && forall i :: 0 <= i < |v.items| ==> Hashable(v.items[i]))
  }

  predicate Plain(c: Json)
    decreases c, 0
  {
    c.Obj? &&
    if IsCompound(c) then
      var children := Entry(c, Operation(c)).value;
      if Operation(c) == "not" then Plain(children) else !children.Arr? || PlainEach(children.items)
    else Scalars(OrNull(Entry(c, "value")))
  }

  predicate PlainEach(cs: seq<Json>)
    decreases cs, 0
  {
    cs == [] || (Plain(cs[0]) && PlainEach(cs[1..]))
  }

  // any() meets a signal before the first list or mapping.
  predicate SignalsReached(types: set<string>, items: seq<Json>) {
    forall i :: 0 <= i < |items| && !Hashable(items[i]) ==> exists j :: 0 <= j < i && items[j].Str? && items[j].s in types
  }

  // The operators that need numbers, short texts or hashable items find them in the facts.
  predicate LeafComputes(c: Json, facts: Facts)
    requires c.Obj?
  {
    var field, op, value := OrNull(Entry(c, "field")), OrNull(Entry(c, "op")), OrNull(Entry(c, "value"));
    field.Str? && op.Str? ==>
      var a := facts.Get(field.s);
      && (op.s in ORDERINGS ==> NumberOfValue(a).Comparable() && NumberOf(ItemText(value)).Comparable())
      && (op.s == "BETWEEN" ==> Between(NumberOfValue(a), value).Ok?)
      && (op.s == "REGEX" ==> |Shown(a, facts)| <= 5000)
      && (op.s == "HAS_SIGNAL" ==> SignalsReached(facts.signalTypes, ItemsOf(value)))
  }

  // No operand of an ordering comparison or of BETWEEN is a NaN, and no signal item is hashed in vain.
  predicate LeafIsTame(c: Json, facts: Facts)
    requires c.Obj?
  {
    var field, op, value := OrNull(Entry(c, "field")), OrNull(Entry(c, "op")), OrNull(Entry(c, "value"));
    field.Str? && op.Str? ==>
      && (op.s in ORDERINGS || op.s == "BETWEEN" ==>
            !NumberOfValue(facts.Get(field.s)).NotANumber? && !NumberOf(ItemText(value)).NotANumber?
            && (op.s == "BETWEEN" && value.Arr? ==> forall i :: 0 <= i < |value.items| ==> !NumberOf(ItemText(value.items[i])).NotANumber?))
      && (op.s == "HAS_SIGNAL" ==> SignalsReached(facts.signalTypes, ItemsOf(value)))
  }

  predicate IsTame(c: Json, facts: Facts)
    decreases c, 0
  {
    c.Obj? &&
    if IsCompound(c) then
      var children := Entry(c, Operation(c)).value;
      if Operation(c) == "not" then IsTame(children, facts) else !children.Arr? || EachIsTame(children.items, facts)
    else LeafIsTame(c, facts)
  }

  predicate EachIsTame(cs: seq<Json>, facts: Facts)
    decreases cs, 0
  {
    cs == [] || (IsTame(cs[0], facts) && EachIsTame(cs[1..], facts))
  }

  predicate Computes(c: Json, facts: Facts)
    decreases c, 0
  {
    c.Obj? &&
    if IsCompound(c) then
      var children := Entry(c, Operation(c)).value;
      if Operation(c) == "not" then Computes(children, facts) else !children.Arr? || ComputesEach(children.items, facts)
    else LeafComputes(c, facts)
  }

  predicate ComputesEach(cs: seq<Json>, facts: Facts)
    decreases cs, 0
  {
    cs == [] || (Computes(cs[0], facts) && ComputesEach(cs[1..], facts))
  }

  lemma SignalsReachedTail(types: set<string>, items: seq<Json>)
    requires items != [] && Hashable(items[0]) && !(items[0].Str? && items[0].s in types)
    ensures SignalsReached(types, items) <==> SignalsReached(types, items[1..])
  {
    hide Hashable;
    var rest := items[1..];
    if SignalsReached(types, items) {
      forall i | 0 <= i < |rest| && !Hashable(rest[i]) ensures exists j :: 0 <= j < i && rest[j].Str? && rest[j].s in types {
        assert items[i + 1] == rest[i];
        var j :| 0 <= j < i + 1 && items[j].Str? && items[j].s in types;
        assert rest[j - 1] == items[j];
      }
    }
    if SignalsReached(types, rest) {
      forall i | 0 <= i < |items| && !Hashable(items[i]) ensures exists j :: 0 <= j < i && items[j].Str? && items[j].s in types {
        assert rest[i - 1] == items[i];
        var j :| 0 <= j < i - 1 && rest[j].Str? && rest[j].s in types;
        assert items[j + 1] == rest[j];
      }
    }
  }

  // HAS_SIGNAL fails exactly when it hashes a list or a mapping before it meets a signal.
  lemma {:induction false} HasSignalExactly(types: set<string>, items: seq<Json>)
    ensures HasSignal(types, items).Ok? <==> SignalsReached(types, items)
    ensures HasSignal(types, items).Err? ==> HasSignal(types, items) == Err(TypeFault)
  {
    hide SignalsReached;
    if items == [] {
      NothingToReach(types);
    } else if !Hashable(items[0]) || (items[0].Str? && items[0].s in types) {
      FirstDecides(types, items);
    } else {
      SignalsReachedTail(types, items);
      HasSignalExactly(types, items[1..]);
    }
  }

  lemma NothingToReach(types: set<string>)
    ensures SignalsReached(types, [])
  {
  }

  lemma FirstDecides(types: set<string>, items: seq<Json>)
    requires items != [] && (!Hashable(items[0]) || (items[0].Str? && items[0].s in types))
    ensures SignalsReached(types, items) <==> Hashable(items[0])
  {
  }

  lemma CheckedLeafComputes(c: Json, facts: Facts, regex: Regex)
    requires c.Obj? && CheckLeaf(c, regex).Ok?
    ensures Leaf(c, facts, regex).Ok? <==> LeafComputes(c, facts)
    ensures LeafIsTame(c, facts) ==> Leaf(c, facts, regex) != Err(TypeFault)
  {
    hide Equal, Present, Contains, HasPrefix, InItems, ItemText, Shown, NumberOf, NumberOfValue, EntryIn, HasSignal, AtMost, SignalsReached;
    HasSignalExactly(facts.signalTypes, ItemsOf(Entry(c, "value").value));
  }

  /**
   A condition that passed the validator evaluates exactly when its ordering, BETWEEN and REGEX leaves find
   numbers, or a text that is short enough, in the facts and its HAS_SIGNAL leaves meet a signal before any
   list or mapping.  Unless one of the numbers compared is a NaN or such an item is hashed, the only error it
   can raise is a configuration error.
   */
  lemma {:induction false} CheckedEvaluates(c: Json, facts: Facts, regex: Regex, depth: nat)
    requires Check(c, regex, depth).Ok?
    ensures Evaluate(c, facts, regex, depth).Ok? <==> Computes(c, facts)
    ensures IsTame(c, facts) ==> Evaluate(c, facts, regex, depth) != Err(TypeFault)
    decreases c, 0
  {
    hide CheckLeaf, Leaf, LeafComputes, LeafIsTame, EntryIn;
    if IsCompound(c) {
      var children := Entry(c, Operation(c)).value;
      if Operation(c) == "not" {
        CheckedEvaluates(children, facts, regex, depth + 1);
      } else {
        CheckedEvaluateEach(children.items, facts, regex, depth + 1);
      }
    } else {
      CheckedLeafComputes(c, facts, regex);
    }
  }

  lemma {:induction false} CheckedEvaluateEach(cs: seq<Json>, facts: Facts, regex: Regex, depth: nat)
    requires CheckEach(cs, regex, depth).Ok?
    ensures EvaluateEach(cs, facts, regex, depth).Ok? <==> ComputesEach(cs, facts)
    ensures EachIsTame(cs, facts) ==> EvaluateEach(cs, facts, regex, depth) != Err(TypeFault)
    decreases cs, 0
  {
    hide CheckLeaf, Leaf, LeafComputes, LeafIsTame, EntryIn, IsCompound;
    if cs != [] {
      CheckedEvaluates(cs[0], facts, regex, depth);
      CheckedEvaluateEach(cs[1..], facts, regex, depth);
    }
  }

  // A simple condition as the forms write it.
  function Condition(field: string, op: string, value: Json): Json {
    Obj([Keyed("field", Str(field)), Keyed("op", Str(op)), Keyed("value", value)])
  }

  lemma LeafIsEntries(field: string, op: string, value: Json)
    ensures var c := Condition(field, op, value);
      Entry(c, "field") == Some(Str(field)) && Entry(c, "op") == Some(Str(op)) && Entry(c, "value") == Some(value)
      && Entry(c, "all") == None && Entry(c, "any") == None && Entry(c, "not") == None && |c.entries| == 3
  {
    var es := Condition(field, op, value).entries;
    assert es[1..] == [Keyed("op", Str(op)), Keyed("value", value)] && es[1..][1..] == [Keyed("value", value)];
    assert es[1..][1..][1..] == [];
    EntryOf(es, "field");
    EntryOf(es, "op");
    EntryOf(es, "value");
    EntryOf(es, "all");
    EntryOf(es, "any");
    EntryOf(es, "not");
  }

  lemma EntryOf(es: seq<Keyed<Json>>, key: string)
    requires |es| == 3
    ensures EntryIn(es, key)
         == if es[0].key == key then Some(es[0].value) else if es[1].key == key then Some(es[1].value)
            else if es[2].key == key then Some(es[2].value) else None
  {
    assert es[1..][0] == es[1] && es[1..][1..][0] == es[2] && es[1..][1..][1..] == [];
  }

  // A simple condition is checked and evaluated as its three entries say.
  lemma LeafEvaluates(field: string, op: string, value: Json, facts: Facts, regex: Regex)
    requires field in ALLOWED_FIELDS
    ensures Evaluate(Condition(field, op, value), facts, regex, 0) == Simple(field, op, value, facts, regex)
    ensures Check(Condition(field, op, value), regex, 0) == CheckLeaf(Condition(field, op, value), regex)
  {
    hide EntryIn, Simple, CheckLeaf;
    LeafIsEntries(field, op, value);
  }

  /** A validated scalar condition that raises no configuration error: comparing with a NaN. */
  lemma NaNRaises(facts: Facts, regex: Regex)
    requires NumberOfValue(facts.Get("municipality_code")).Comparable()
    ensures var c := Condition("municipality_code", "GT", Str("NaN"));
      Check(c, regex, 0).Ok? && Plain(c) && !IsTame(c, facts) && Evaluate(c, facts, regex, 0) == Err(TypeFault)
  {
    hide EntryIn, NumberOf;
    LeafIsEntries("municipality_code", "GT", Str("NaN"));
    LeafEvaluates("municipality_code", "GT", Str("NaN"), facts, regex);
    ReadsNaN();
    assert "GT" in COMPARISONS + CONTAINS + OTHERS;
  }

  // No ordering comparison, BETWEEN or REGEX anywhere.
  predicate NeedsNoNumbers(c: Json)
    decreases c, 0
  {
    c.Obj? &&
    if IsCompound(c) then
      var children := Entry(c, Operation(c)).value;
      if Operation(c) == "not" then NeedsNoNumbers(children) else !children.Arr? || NeedsNoNumbersEach(children.items)
    else
      var op := OrNull(Entry(c, "op"));
      op.Str? ==> op.s !in ORDERINGS && op.s != "BETWEEN" && op.s != "REGEX"
  }

  predicate NeedsNoNumbersEach(cs: seq<Json>)
    decreases cs, 0
  {
    cs == [] || (NeedsNoNumbers(cs[0]) && NeedsNoNumbersEach(cs[1..]))
  }

  lemma {:induction false} NeedsNoNumbersComputes(c: Json, facts: Facts)
    requires NeedsNoNumbers(c) && Plain(c)
    ensures Computes(c, facts)
    decreases c, 0
  {
    hide EntryIn, Between, NumberOf, Shown, SignalsReached, Scalars;
    if IsCompound(c) {
      var children := Entry(c, Operation(c)).value;
      if Operation(c) == "not" {
        NeedsNoNumbersComputes(children, facts);
      } else if children.Arr? {
        NeedsNoNumbersComputesEach(children.items, facts);
      }
    } else {
      ScalarsAreReached(OrNull(Entry(c, "value")), facts.signalTypes);
    }
  }

  lemma ScalarsAreReached(v: Json, types: set<string>)
    requires Scalars(v)
    ensures SignalsReached(types, ItemsOf(v))
  {
  }

  lemma {:induction false} NeedsNoNumbersComputesEach(cs: seq<Json>, facts: Facts)
    requires NeedsNoNumbersEach(cs) && PlainEach(cs)
    ensures ComputesEach(cs, facts)
    decreases cs, 0
  {
    hide Plain, NeedsNoNumbers, Computes;
    if cs != [] {
      NeedsNoNumbersComputes(cs[0], facts);
      NeedsNoNumbersComputesEach(cs[1..], facts);
    }
  }

  /** A validated tree over scalars without ordering, BETWEEN or REGEX evaluates on all facts. */
  lemma ValidatedNeverFails(c: Json, facts: Facts, regex: Regex)
    requires Check(c, regex, 0).Ok? && Plain(c) && NeedsNoNumbers(c)
    ensures Evaluate(c, facts, regex, 0).Ok?
  {
    CheckedEvaluates(c, facts, regex, 0);
    NeedsNoNumbersComputes(c, facts);
  }

  // The field has a value in the facts.
  predicate HasValue(a: Value) {
    match a
    case Nothing => false
    case Text(s) => s != ""
    case Codes(cs) => cs != []
    case Types(ts) => ts != {}
  }

  /**
   EXISTS and NOT_EXISTS agree with whether the field has a value, except on signal_types without
   any visible signal: an empty set is none of the empty values they know.
   */
  lemma ExistsAgreesExactly(field: string, v: Json, facts: Facts, regex: Regex)
    ensures Simple(field, "EXISTS", v, facts, regex) == Ok(HasValue(facts.Get(field)))
       <==> field != "signal_types" || facts.signalTypes != {}
    ensures Simple(field, "NOT_EXISTS", v, facts, regex) == Ok(!HasValue(facts.Get(field)))
       <==> field != "signal_types" || facts.signalTypes != {}
  {
    hide Equal, Member, Contains, HasPrefix, InItems, ItemText, Shown, NumberOf, NumberOfValue, HasSignal, Between, Lower;
  }

  // ------------------------------------------------------------- the text of signal types

  // The only leaves that look at the text of the set of signal types.
  predicate LeafReadsShown(c: Json)
    requires c.Obj?
  {
    var op := OrNull(Entry(c, "op"));
    Entry(c, "field") == Some(Str("signal_types")) && op.Str? && (op.s in CONTAINS || op.s == "REGEX")
  }

  predicate ReadsShown(c: Json)
    decreases c, 0
  {
    c.Obj? &&
    if IsCompound(c) then
      var children := Entry(c, Operation(c)).value;
      if Operation(c) == "not" then ReadsShown(children) else children.Arr? && SomeReadsShown(children.items)
    else LeafReadsShown(c)
  }

  predicate SomeReadsShown(cs: seq<Json>)
    decreases cs, 0
  {
    cs != [] && (ReadsShown(cs[0]) || SomeReadsShown(cs[1..]))
  }

  ghost predicate EqualButShown(f: Facts, g: Facts) {
    f == g.(shown := f.shown)
  }

  lemma LeafIgnoresShown(c: Json, f: Facts, g: Facts, regex: Regex)
    requires c.Obj? && !LeafReadsShown(c) && EqualButShown(f, g)
    ensures Leaf(c, f, regex) == Leaf(c, g, regex)
  {
    hide Equal, Present, Contains, HasPrefix, InItems, ItemText, NumberOf, EntryIn, HasSignal, Between, Lower, Quoted;
  }

  /** Facts that differ only in the text of the signal types look alike to other conditions. */
  lemma {:induction false} EvaluateIgnoresShown(c: Json, f: Facts, g: Facts, regex: Regex, depth: nat)
    requires !ReadsShown(c) && EqualButShown(f, g)
    ensures Evaluate(c, f, regex, depth) == Evaluate(c, g, regex, depth)
    decreases c, 0
  {
    hide Leaf, LeafReadsShown, EntryIn;
    if c.Obj? && IsCompound(c) {
      var children := Entry(c, Operation(c)).value;
      if Operation(c) == "not" {
        EvaluateIgnoresShown(children, f, g, regex, depth + 1);
      } else if children.Arr? {
        EvaluateEachIgnoresShown(children.items, f, g, regex, depth + 1);
      }
    } else if c.Obj? {
      LeafIgnoresShown(c, f, g, regex);
    }
  }

  lemma {:induction false} EvaluateEachIgnoresShown(cs: seq<Json>, f: Facts, g: Facts, regex: Regex, depth: nat)
    requires !SomeReadsShown(cs) && EqualButShown(f, g)
    ensures EvaluateEach(cs, f, regex, depth) == EvaluateEach(cs, g, regex, depth)
    decreases cs, 0
  {
    if cs != [] {
      EvaluateIgnoresShown(cs[0], f, g, regex, depth);
      EvaluateEachIgnoresShown(cs[1..], f, g, regex, depth);
    }
  }

  lemma LeafErrorsIgnoreShown(c: Json, f: Facts, g: Facts, regex: Regex)
    requires c.Obj? && CheckLeaf(c, regex).Ok? && EqualButShown(f, g) && Leaf(c, g, regex).Ok?
    ensures Leaf(c, f, regex) != Err(TypeFault)
  {
    if !LeafReadsShown(c) {
      LeafIgnoresShown(c, f, g, regex);
    }
    hide Equal, Present, Contains, HasPrefix, InItems, ItemText, NumberOf, EntryIn, HasSignal, Between, Lower, Quoted, Shown;
  }

  /** The text of the signal types decides no error but a configuration error: the other facts decide the rest. */
  lemma {:induction false} ErrorsIgnoreShown(c: Json, f: Facts, g: Facts, regex: Regex, depth: nat)
    requires Check(c, regex, depth).Ok? && EqualButShown(f, g) && Evaluate(c, g, regex, depth).Ok?
    ensures Evaluate(c, f, regex, depth) != Err(TypeFault)
    decreases c, 0
  {
    hide CheckLeaf, Leaf, EntryIn;
    if IsCompound(c) {
      var children := Entry(c, Operation(c)).value;
      if Operation(c) == "not" {
        ErrorsIgnoreShown(children, f, g, regex, depth + 1);
      } else {
        EachErrorIgnoresShown(children.items, f, g, regex, depth + 1);
      }
    } else {
      LeafErrorsIgnoreShown(c, f, g, regex);
    }
  }

  lemma {:induction false} EachErrorIgnoresShown(cs: seq<Json>, f: Facts, g: Facts, regex: Regex, depth: nat)
    requires CheckEach(cs, regex, depth).Ok? && EqualButShown(f, g) && EvaluateEach(cs, g, regex, depth).Ok?
    ensures EvaluateEach(cs, f, regex, depth) != Err(TypeFault)
    decreases cs, 0
  {
    hide CheckLeaf, Leaf, EntryIn, IsCompound;
    if cs != [] {
      ErrorsIgnoreShown(cs[0], f, g, regex, depth);
      EachErrorIgnoresShown(cs[1..], f, g, regex, depth);
    }
  }

  // ------------------------------------------------------- the signal types of a condition

  function Strings(items: seq<Json>): set<string> {
    set i | 0 <= i < |items| && items[i].Str? :: items[i].s
  }

  // set(...) raises for a list or a mapping among the items.
  predicate AllHashable(items: seq<Json>) {
    forall i :: 0 <= i < |items| ==> Hashable(items[i])
  }

  function Union(a: Result<set<string>, Fault>, b: Result<set<string>, Fault>): Result<set<string>, Fault> {
    if a.Err? then a else if b.Err? then b else Ok(a.value + b.value)
  }

  /** `_signal_types`: the types named by HAS_SIGNAL anywhere in the tree, under a negation too. */
  function SignalTypes(c: Json): Result<set<string>, Fault>
    decreases c, 1
  {
    if !c.Obj? then Ok({})
    else if Entry(c, "op") == Some(Str("HAS_SIGNAL")) then
      (match Entry(c, "value")
       case None => Ok({})
       case Some(v) => if AllHashable(ItemsOf(v)) then Ok(Strings(ItemsOf(v))) else Err(TypeFault))
    else
      Union(Union(SignalTypesUnder(c, "all"), SignalTypesUnder(c, "any")),
            match Entry(c, "not") case Some(child) => SignalTypes(child) case None => Ok({}))
  }

  // Iterating the characters of a text or the keys of a mapping finds no conditions.
  function SignalTypesUnder(c: Json, key: string): Result<set<string>, Fault>
    requires c.Obj?
    decreases c, 0
  {
    match Entry(c, key)
    case None => Ok({})
    case Some(Arr(items)) => SignalTypesEach(items)
    case Some(Str(_)) => Ok({})
    case Some(Obj(_)) => Ok({})
    case Some(_) => Err(TypeFault)
  }

  function SignalTypesEach(cs: seq<Json>): Result<set<string>, Fault>
    decreases cs, 0
  {
    if cs == [] then Ok({}) else Union(SignalTypes(cs[0]), SignalTypesEach(cs[1..]))
  }

  // Every HAS_SIGNAL leaf names hashable items only.
  predicate SignalItemsHashable(c: Json)
    decreases c, 0
  {
    c.Obj? &&
    if IsCompound(c) then
      var children := Entry(c, Operation(c)).value;
      if Operation(c) == "not" then SignalItemsHashable(children) else !children.Arr? || EachSignalItemsHashable(children.items)
    else Entry(c, "op") == Some(Str("HAS_SIGNAL")) ==> AllHashable(ItemsOf(OrNull(Entry(c, "value"))))
  }

  predicate EachSignalItemsHashable(cs: seq<Json>)
    decreases cs, 0
  {
    cs == [] || (SignalItemsHashable(cs[0]) && EachSignalItemsHashable(cs[1..]))
  }

  // A compound condition has no other key.
  lemma OnlyOperation(c: Json, key: string)
    requires IsCompound(c) && Alone(c) && key != Operation(c)
    ensures Entry(c, key) == None
  {
    assert c.entries[1..] == [];
  }

  /** For a validated condition `_signal_types` raises exactly when some HAS_SIGNAL item is a list or a mapping. */
  lemma {:induction false} SignalTypesExactly(c: Json, regex: Regex, depth: nat)
    requires Check(c, regex, depth).Ok?
    ensures SignalTypes(c).Ok? <==> SignalItemsHashable(c)
    ensures SignalTypes(c).Err? ==> SignalTypes(c) == Err(TypeFault)
    decreases c, 2
  {
    hide CheckLeaf, EntryIn, AllHashable;
    if IsCompound(c) {
      var op := Operation(c);
      var children := Entry(c, op).value;
      forall key | key in {"all", "any", "not", "op"} && key != op ensures Entry(c, key) == None {
        OnlyOperation(c, key);
      }
      if op == "not" {
        SignalTypesExactly(children, regex, depth + 1);
      } else {
        SignalTypesEachExactly(children.items, regex, depth + 1);
      }
    } else {
      LeafSignalTypes(c, regex);
    }
  }

  lemma LeafSignalTypes(c: Json, regex: Regex)
    requires c.Obj? && !IsCompound(c) && CheckLeaf(c, regex).Ok?
    ensures SignalTypes(c).Ok? <==> SignalItemsHashable(c)
    ensures SignalTypes(c).Err? ==> SignalTypes(c) == Err(TypeFault)
  {
    hide EntryIn, AllHashable;
  }

  lemma {:induction false} SignalTypesEachExactly(cs: seq<Json>, regex: Regex, depth: nat)
    requires CheckEach(cs, regex, depth).Ok?
    ensures SignalTypesEach(cs).Ok? <==> EachSignalItemsHashable(cs)
    ensures SignalTypesEach(cs).Err? ==> SignalTypesEach(cs) == Err(TypeFault)
    decreases cs, 2
  {
    hide CheckLeaf, EntryIn, SignalTypes, SignalItemsHashable;
    if cs != [] {
      SignalTypesExactly(cs[0], regex, depth);
      SignalTypesEachExactly(cs[1..], regex, depth);
    }
  }

  // Scalar values have hashable items.
  lemma {:induction false} PlainIsHashable(c: Json)
    requires Plain(c)
    ensures SignalItemsHashable(c)
    decreases c, 0
  {
    hide EntryIn;
    if IsCompound(c) {
      var children := Entry(c, Operation(c)).value;
      if Operation(c) == "not" {
        PlainIsHashable(children);
      } else if children.Arr? {
        PlainEachIsHashable(children.items);
      }
    }
  }

  lemma {:induction false} PlainEachIsHashable(cs: seq<Json>)
    requires PlainEach(cs)
    ensures EachSignalItemsHashable(cs)
    decreases cs, 0
  {
    hide Plain, SignalItemsHashable;
    if cs != [] {
      PlainIsHashable(cs[0]);
      PlainEachIsHashable(cs[1..]);
    }
  }
}
