/**
 What a score says, from the company's facts, the signals and the rules alone: which rules contribute, in
 which order, with which observation, multiplier and points, and what the dimensions add up to.
 */
module ScoreMeaning {
  import opened Basics
  import opened Numbers
  import opened Ordering
  import JsonText
  import opened Conditions
  import opened ConditionMeaning
  import opened Rounding
  import opened ScoringEngine

  // ------------------------------------------------------------------ what is stated

  // Every active rule passed the validator.
  ghost predicate RulesChecked(rs: RuleSet, regex: Regex) {
    forall rule :: rule in rs.rules && rule.active ==> Check(rule.condition, regex, 0).Ok?
  }

  // The company's texts, its codes with the first as primary one, and the types of the signals.
  ghost predicate AreFactsOf(facts: Facts, c: Company, rows: seq<Signal>, show: seq<string> -> string) {
    && facts.cnaes == c.cnaes
    && facts.texts == c.texts["primary_cnae" := if |c.cnaes| > 0 then c.cnaes[0] else ""]
    && (forall t :: t in facts.signalTypes <==> exists s :: s in rows && s.signalType == t)
    && facts.shown == show(seq(|rows|, i requires 0 <= i < |rows| => rows[i].signalType))
  }

  // Some HAS_SIGNAL of the condition names the type, under a negation too.
  ghost predicate NamesType(c: JsonText.Json, t: string)
    decreases c
  {
    c.Obj? &&
    if |c.entries| != 1 then
      Names(c, "op", JsonText.Str("HAS_SIGNAL")) && exists v :: Names(c, "value", v) && IsItem(v, JsonText.Str(t))
    else
      var children := c.entries[0].value;
      if c.entries[0].key == "not" then NamesType(children, t)
      else children.Arr? && exists i :: 0 <= i < |children.items| && NamesType(children.items[i], t)
  }

  // The latest observation among the signals whose type the condition names.
  ghost predicate LatestNamed(observedAt: Option<Time>, condition: JsonText.Json, rows: seq<Signal>) {
    match observedAt
    case None => forall s :: s in rows ==> !NamesType(condition, s.signalType)
    case Some(t) =>
      && (exists s :: s in rows && NamesType(condition, s.signalType) && s.observedAt == t)
      && (forall s :: s in rows && NamesType(condition, s.signalType) ==> s.observedAt <= t)
  }

  // The multiplier of an age in days when the rule has no curve of its own.
  function StandardMultiplier(days: int): real {
    if days <= 30 then 1.0 else if days <= 60 then 0.8 else if days <= 90 then 0.6 else if days <= 180 then 0.3 else 0.1
  }

  // The bucket i is the first that covers the age.
  ghost predicate FirstCovers(curve: seq<Bucket>, i: nat, days: int) {
    && i < |curve| && (curve[i].maxDays.None? || days <= curve[i].maxDays.value)
    && forall j :: 0 <= j < i ==> curve[j].maxDays.Some? && days > curve[j].maxDays.value
  }

  // Full points without decay or observation; otherwise what the curve gives after so many whole calendar days.
  ghost predicate MultiplierHolds(rule: Rule, observedAt: Option<Time>, multiplier: real, asOf: Time) {
    if !rule.decays || observedAt.None? then multiplier == 1.0
    else
      var days := Max(0, asOf / 86400 - observedAt.value / 86400);
      if rule.curve == [] then multiplier == StandardMultiplier(days)
      else
        || (exists i: nat :: FirstCovers(rule.curve, i, days) && rule.curve[i].multiplier == Finite(multiplier))
        || ((forall j :: 0 <= j < |rule.curve| ==> rule.curve[j].maxDays.Some? && days > rule.curve[j].maxDays.value) && multiplier == 0.0)
  }

  // The points times the multiplier, not rounded.
  ghost function Decayed(rule: Rule, multiplier: real): real {
    rule.points as real * multiplier
  }

  // A nearest whole number of thousandths, and the even one of two.
  ghost predicate Nearest(r: Milli, x: real) {
    -0.5 <= r as real - x <= 0.5 && (r as real - x == 0.5 || r as real - x == -0.5 ==> r % 2 == 0)
  }

  // What the first n matches have used of the caps of a group.
  ghost function GroupUsed(ms: seq<Matched>, n: nat, g: string): Milli
    requires n <= |ms|
  {
    if n == 0 then 0
    else
      var m := ms[n - 1];
      GroupUsed(ms, n - 1, g) + if m.rule.groupKey == g && m.rule.groupCap.Some? then Max(0, m.effective) else 0
  }

  // Points times multiplier, rounded to decayed; of a positive amount in a capped group, what the cap still leaves.
  ghost predicate LeavesPoints(m: Matched, used: Milli, decayed: Milli) {
    && Nearest(decayed, Decayed(m.rule, m.multiplier))
    && m.effective == if m.rule.groupKey != "" && m.rule.groupCap.Some? && decayed > 0
                      then Max(0, Min(decayed, m.rule.groupCap.value - used)) else decayed
  }

  ghost predicate PointsHold(ms: seq<Matched>, i: nat)
    requires i < |ms|
  {
    exists decayed: Milli :: LeavesPoints(ms[i], GroupUsed(ms, i, ms[i].rule.groupKey), decayed)
  }

  ghost predicate ContributionHolds(ms: seq<Matched>, i: nat, rows: seq<Signal>, asOf: Time)
    requires i < |ms|
  {
    && LatestNamed(ms[i].observedAt, ms[i].rule.condition, rows)
    && MultiplierHolds(ms[i].rule, ms[i].observedAt, ms[i].multiplier, asOf)
    && PointsHold(ms, i)
  }

  function RulesOf(ms: seq<Matched>): (rules: seq<Rule>)
    ensures |rules| == |ms| && forall i :: 0 <= i < |ms| ==> rules[i] == ms[i].rule
  {
    seq(|ms|, i requires 0 <= i < |ms| => ms[i].rule)
  }

  // By order, then by key.
  ghost predicate Before(x: Rule, y: Rule) {
    x.order < y.order || (x.order == y.order && Leq(x.key, y.key))
  }

  // The contributions are the active rules that hold of the facts, each as often as the set has it, in order.
  ghost predicate RulesMeant(ms: seq<Matched>, rules: seq<Rule>, facts: Facts, regex: Regex) {
    && (forall rule :: multiset(RulesOf(ms))[rule] ==
          if rule.active && Means(rule.condition, facts, regex) then multiset(rules)[rule] else 0)
    && (forall i, j :: 0 <= i < j < |ms| ==> Before(ms[i].rule, ms[j].rule))
  }

  // The points of the contributions to a dimension, added up.
  function PointsIn(ms: seq<Matched>, d: string): Milli {
    if ms == [] then 0 else (if ms[0].rule.dimension == d then ms[0].effective else 0) + PointsIn(ms[1..], d)
  }

  ghost predicate DimensionsHold(s: Snapshot) {
    s.dimensions.Keys == {"ICP", "MES", "CMMS", "PULSE", "INTENT", "PARTNER_FIT", "CHANNEL", "ACTIVITY", "CONFLICT"}
    && forall d :: d in s.dimensions ==> s.dimensions[d] == Max(0, Min(100000, PointsIn(s.contributions, d)))
  }

  ghost predicate SnapshotMeant(s: Snapshot, c: Company, rs: RuleSet, rows: seq<Signal>, asOf: Time, regex: Regex, show: seq<string> -> string) {
    && (forall facts :: AreFactsOf(facts, c, rows, show) ==> RulesMeant(s.contributions, rs.rules, facts, regex))
    && (forall i :: 0 <= i < |s.contributions| ==> ContributionHolds(s.contributions, i, rows, asOf))
    && DimensionsHold(s)
  }

  // ----------------------------------------------------------------------- the facts

  lemma TypesAre(rows: seq<Signal>, t: string)
    ensures t in TypesOf(rows) <==> exists s :: s in rows && s.signalType == t
  {
    if s :| s in rows && s.signalType == t {
      var i :| 0 <= i < |rows| && rows[i] == s;
      assert rows[i].signalType == t;
    }
    if t in TypesOf(rows) {
      var i :| 0 <= i < |rows| && rows[i].signalType == t;
      assert rows[i] in rows;
    }
  }

  lemma FactsAreSeen(facts: Facts, c: Company, rows: seq<Signal>, show: seq<string> -> string)
    ensures AreFactsOf(facts, c, rows, show) <==> facts == FactsOf(c, rows, show)
  {
    hide TypesOf;
    forall t ensures t in TypesOf(rows) <==> exists s :: s in rows && s.signalType == t {
      TypesAre(rows, t);
    }
    assert TypesInOrder(rows) == seq(|rows|, i requires 0 <= i < |rows| => rows[i].signalType);
    if AreFactsOf(facts, c, rows, show) {
      assert facts.signalTypes == TypesOf(rows);
    }
  }

  // --------------------------------------------------------- the types a condition names

  lemma StringsAre(v: JsonText.Json, t: string)
    ensures t in Strings(ItemsOf(v)) <==> IsItem(v, JsonText.Str(t))
  {
    ItemsAre(v);
    var items := ItemsOf(v);
    if JsonText.Str(t) in items {
      var i :| 0 <= i < |items| && items[i] == JsonText.Str(t);
      assert items[i].s == t;
    }
  }

  lemma LeafNames(c: JsonText.Json, regex: Regex, t: string)
    requires c.Obj? && !IsCompound(c) && CheckLeaf(c, regex).Ok? && SignalTypes(c).Ok?
    ensures t in SignalTypes(c).value <==> NamesType(c, t)
  {
    hide EntryIn, ItemText, Strings, IsItem, Names;
    EntryNames(c, "field");
    EntryNames(c, "op");
    EntryNames(c, "value");
    var op, value := Entry(c, "op").value, Entry(c, "value").value;
    StringsAre(value, t);
    forall v | Names(c, "op", v) ensures v == op {
      NamedOnce(c, "op", v, op);
    }
    forall v | Names(c, "value", v) ensures v == value {
      NamedOnce(c, "value", v, value);
    }
  }

  /** The types collected from a validated condition are those some HAS_SIGNAL in it names. */
  lemma {:induction false} TypesAreNamed(c: JsonText.Json, regex: Regex, depth: nat, t: string)
    requires Check(c, regex, depth).Ok? && SignalTypes(c).Ok?
    ensures t in SignalTypes(c).value <==> NamesType(c, t)
    decreases c, 2
  {
    hide CheckLeaf, EntryIn, AllHashable;
    if IsCompound(c) {
      CompoundIs(c);
      var op, children := Operation(c), c.entries[0].value;
      forall key | key in {"all", "any", "not", "op"} && key != op ensures Entry(c, key) == None {
        OnlyOperation(c, key);
      }
      if op == "not" {
        TypesAreNamed(children, regex, depth + 1, t);
      } else {
        EachNames(children.items, regex, depth + 1, t);
      }
    } else {
      LeafNames(c, regex, t);
    }
  }

  lemma {:induction false} EachNames(cs: seq<JsonText.Json>, regex: Regex, depth: nat, t: string)
    requires CheckEach(cs, regex, depth).Ok? && SignalTypesEach(cs).Ok?
    ensures t in SignalTypesEach(cs).value <==> exists i :: 0 <= i < |cs| && NamesType(cs[i], t)
    decreases cs, 2
  {
    hide Check, SignalTypes, NamesType;
    if cs != [] {
      TypesAreNamed(cs[0], regex, depth, t);
      EachNames(cs[1..], regex, depth, t);
      assert forall i :: 1 <= i < |cs| ==> cs[i] == cs[1..][i - 1];
      assert forall i :: 0 <= i < |cs[1..]| ==> cs[1..][i] == cs[i + 1];
    }
  }

  // --------------------------------------------------------------------- one rule

  lemma {:induction false} LookupHolds(curve: seq<Bucket>, age: nat)
    requires Lookup(curve, age).Ok?
    ensures var m := Lookup(curve, age).value;
      || (exists i: nat :: FirstCovers(curve, i, age) && curve[i].multiplier == Finite(m))
      || ((forall j :: 0 <= j < |curve| ==> curve[j].maxDays.Some? && age > curve[j].maxDays.value) && m == 0.0)
  {
    if curve != [] {
      if curve[0].maxDays.None? || age <= curve[0].maxDays.value {
        assert FirstCovers(curve, 0, age);
      } else {
        LookupHolds(curve[1..], age);
        var m := Lookup(curve, age).value;
        if i: nat :| FirstCovers(curve[1..], i, age) && curve[1..][i].multiplier == Finite(m) {
          assert FirstCovers(curve, i + 1, age);
        }
      }
    }
  }

  lemma LookupFrom(i: nat, age: nat)
    requires i < |DEFAULT_CURVE|
    ensures Lookup(DEFAULT_CURVE[i..], age) ==
      if DEFAULT_CURVE[i].maxDays.None? || age <= DEFAULT_CURVE[i].maxDays.value
      then (match DEFAULT_CURVE[i].multiplier case Finite(m) => Ok(m) case Malformed => Err(Misconfigured) case _ => Err(TypeFault))
      else Lookup(DEFAULT_CURVE[i + 1..], age)
  {
    hide Lookup;
    var c := DEFAULT_CURVE[i..];
    assert c[0] == DEFAULT_CURVE[i] && c[1..] == DEFAULT_CURVE[i + 1..];
    LookupCons(c, age);
  }

  lemma LookupCons(curve: seq<Bucket>, age: nat)
    requires curve != []
    ensures Lookup(curve, age) ==
      if curve[0].maxDays.None? || age <= curve[0].maxDays.value
      then (match curve[0].multiplier case Finite(m) => Ok(m) case Malformed => Err(Misconfigured) case _ => Err(TypeFault))
      else Lookup(curve[1..], age)
  {
  }

  lemma StandardCurve(age: nat)
    ensures Lookup(DEFAULT_CURVE, age) == Ok(StandardMultiplier(age))
  {
    hide Lookup;
    assert DEFAULT_CURVE[0..] == DEFAULT_CURVE;
    LookupFrom(0, age);
    LookupFrom(1, age);
    LookupFrom(2, age);
    LookupFrom(3, age);
    LookupFrom(4, age);
  }

  lemma MultiplierIsHeld(rule: Rule, observedAt: Option<Time>, asOf: Time)
    requires Multiplier(rule, observedAt, asOf).Ok?
    ensures MultiplierHolds(rule, observedAt, Multiplier(rule, observedAt, asOf).value, asOf)
  {
    hide Lookup;
    if rule.decays && observedAt.Some? {
      var age := AgeDays(observedAt.value, asOf);
      if rule.curve == [] {
        StandardCurve(age);
      } else {
        LookupHolds(rule.curve, age);
      }
    }
  }

  lemma LatestIsNamed(rule: Rule, regex: Regex, rows: seq<Signal>)
    requires Check(rule.condition, regex, 0).Ok? && SignalTypes(rule.condition).Ok?
    ensures LatestNamed(Latest(rows, SignalTypes(rule.condition).value), rule.condition, rows)
  {
    hide Check, SignalTypes, NamesType, Latest;
    forall t ensures t in SignalTypes(rule.condition).value <==> NamesType(rule.condition, t) {
      TypesAreNamed(rule.condition, regex, 0, t);
    }
  }

  // A rule hits exactly when its condition holds, with the latest observation, its multiplier and rounded points.
  lemma HitMeans(rule: Rule, c: Context)
    requires Check(rule.condition, c.regex, 0).Ok? && HitOf(rule, c).Ok?
    ensures HitOf(rule, c).value.Some? <==> Means(rule.condition, c.facts, c.regex)
    ensures HitOf(rule, c).value.Some? ==>
      var h := HitOf(rule, c).value.value;
      && LatestNamed(h.observedAt, rule.condition, c.signals) && MultiplierHolds(rule, h.observedAt, h.multiplier, c.asOf)
      && Nearest(h.effective, Decayed(rule, h.multiplier))
  {
    hide Check, Evaluate, SignalTypes, Means, Latest, LatestNamed, Multiplier, MultiplierHolds;
    CheckedMeans(rule.condition, c.facts, c.regex, 0);
    if HitOf(rule, c).value.Some? {
      var types := SignalTypes(rule.condition).value;
      LatestIsNamed(rule, c.regex, c.signals);
      MultiplierIsHeld(rule, Latest(c.signals, types), c.asOf);
    }
  }

  // ----------------------------------------------------------------------- the loop

  lemma {:induction false} UsedOfPrefix(ms: seq<Matched>, m: Matched, n: nat, g: string)
    requires n <= |ms|
    ensures GroupUsed(ms + [m], n, g) == GroupUsed(ms, n, g)
  {
    if n > 0 {
      UsedOfPrefix(ms, m, n - 1, g);
      assert (ms + [m])[n - 1] == ms[n - 1];
    }
  }

  // What is true of the loop so far.
  ghost predicate UsedMeant(s: Loop) {
    forall g :: g != "" ==> Used(s.totals, g) == GroupUsed(s.matches, |s.matches|, g)
  }

  ghost predicate CountsMeant(ms: seq<Matched>, rules: seq<Rule>, c: Context) {
    forall rule :: multiset(RulesOf(ms))[rule] == if Means(rule.condition, c.facts, c.regex) then multiset(rules)[rule] else 0
  }

  ghost predicate AllHold(ms: seq<Matched>, c: Context) {
    forall i :: 0 <= i < |ms| ==> ContributionHolds(ms, i, c.signals, c.asOf)
  }

  ghost predicate LoopMeant(s: Loop, rules: seq<Rule>, c: Context) {
    UsedMeant(s) && CountsMeant(s.matches, rules, c) && AllHold(s.matches, c)
  }

  lemma EarlierHold(ms: seq<Matched>, m: Matched, i: nat, rows: seq<Signal>, asOf: Time)
    requires i < |ms| && ContributionHolds(ms, i, rows, asOf)
    ensures ContributionHolds(ms + [m], i, rows, asOf)
  {
    hide LatestNamed, MultiplierHolds, LeavesPoints, GroupUsed;
    assert (ms + [m])[i] == ms[i];
    UsedOfPrefix(ms, m, i, ms[i].rule.groupKey);
  }

  // The match a hit adds, and what it takes from its group.
  lemma NewMatch(s: Loop, rule: Rule, h: Hit)
    ensures var t := AddMatch(s, rule, h.multiplier, h.effective, h.observedAt);
      var m := MatchMade(s, rule, h);
      && t.matches == s.matches + [m]
      && (forall g :: g != "" ==> Used(t.totals, g) == Used(s.totals, g) + Takes(m, g))
  {
  }

  function MatchMade(s: Loop, rule: Rule, h: Hit): Matched {
    Matched(rule, h.multiplier,
            if rule.groupKey != "" && rule.groupCap.Some? && h.effective > 0
            then Max(0, Min(h.effective, rule.groupCap.value - Used(s.totals, rule.groupKey))) else h.effective,
            h.observedAt)
  }

  function Takes(m: Matched, g: string): Milli {
    if m.rule.groupKey == g && m.rule.groupCap.Some? then Max(0, m.effective) else 0
  }

  lemma UsedNext(ms: seq<Matched>, m: Matched, g: string)
    ensures GroupUsed(ms + [m], |ms|, g) == GroupUsed(ms, |ms|, g)
    ensures GroupUsed(ms + [m], |ms| + 1, g) == GroupUsed(ms, |ms|, g) + Takes(m, g)
  {
    UsedOfPrefix(ms, m, |ms|, g);
  }

  lemma UsedStays(s: Loop, rule: Rule, h: Hit)
    requires UsedMeant(s)
    ensures UsedMeant(AddMatch(s, rule, h.multiplier, h.effective, h.observedAt))
  {
    hide AddMatch, MatchMade, Takes, Used, GroupUsed;
    NewMatch(s, rule, h);
    var m := MatchMade(s, rule, h);
    forall g ensures GroupUsed(s.matches + [m], |s.matches| + 1, g) == GroupUsed(s.matches, |s.matches|, g) + Takes(m, g) {
      UsedNext(s.matches, m, g);
    }
  }

  lemma MadeHolds(s: Loop, rule: Rule, h: Hit, c: Context)
    requires UsedMeant(s)
    requires LatestNamed(h.observedAt, rule.condition, c.signals) && MultiplierHolds(rule, h.observedAt, h.multiplier, c.asOf)
    requires Nearest(h.effective, Decayed(rule, h.multiplier))
    ensures ContributionHolds(s.matches + [MatchMade(s, rule, h)], |s.matches|, c.signals, c.asOf)
  {
    hide LatestNamed, MultiplierHolds, Nearest, GroupUsed, Takes, Used, Decayed;
    var m, n := MatchMade(s, rule, h), |s.matches|;
    UsedNext(s.matches, m, rule.groupKey);
    assert (s.matches + [m])[n] == m;
    assert LeavesPoints(m, GroupUsed(s.matches + [m], n, rule.groupKey), h.effective);
  }

  lemma CountsNext(ms: seq<Matched>, m: Matched, rules: seq<Rule>, rule: Rule, c: Context)
    requires CountsMeant(ms, rules, c) && m.rule == rule && Means(rule.condition, c.facts, c.regex)
    ensures CountsMeant(ms + [m], rules + [rule], c)
  {
    hide Means, RulesOf;
    assert RulesOf(ms + [m]) == RulesOf(ms) + [rule];
    assert multiset(RulesOf(ms) + [rule]) == multiset(RulesOf(ms)) + multiset{rule};
    assert multiset(rules + [rule]) == multiset(rules) + multiset{rule};
  }

  lemma CountsSkip(ms: seq<Matched>, rules: seq<Rule>, rule: Rule, c: Context)
    requires CountsMeant(ms, rules, c) && !Means(rule.condition, c.facts, c.regex)
    ensures CountsMeant(ms, rules + [rule], c)
  {
    hide Means, RulesOf;
    assert multiset(rules + [rule]) == multiset(rules) + multiset{rule};
  }

  lemma StepKeepsMeant(s: Loop, init: seq<Rule>, rule: Rule, c: Context)
    requires LoopMeant(s, init, c) && Check(rule.condition, c.regex, 0).Ok? && HitOf(rule, c).Ok?
    ensures LoopMeant(Step(s, rule, c).value, init + [rule], c)
  {
    hide HitOf, AddMatch, Means, ContributionHolds, Check, CountsMeant, UsedMeant, LatestNamed, MultiplierHolds, Nearest, MatchMade, Decayed;
    HitMeans(rule, c);
    if HitOf(rule, c).value.Some? {
      var h := HitOf(rule, c).value.value;
      var m, n := MatchMade(s, rule, h), |s.matches|;
      NewMatch(s, rule, h);
      UsedStays(s, rule, h);
      MadeHolds(s, rule, h, c);
      MadeIsOf(s, rule, h);
      CountsNext(s.matches, m, init, rule, c);
      forall i | 0 <= i < n ensures ContributionHolds(s.matches + [m], i, c.signals, c.asOf) {
        EarlierHold(s.matches, m, i, c.signals, c.asOf);
      }
    } else {
      CountsSkip(s.matches, init, rule, c);
    }
  }

  lemma MadeIsOf(s: Loop, rule: Rule, h: Hit)
    ensures MatchMade(s, rule, h).rule == rule
  {
  }

  lemma LastRule(rules: seq<Rule>, c: Context)
    requires rules != [] && RunRules(rules, c).Ok?
    ensures var init, rule := rules[..|rules| - 1], rules[|rules| - 1];
      && RunRules(init, c).Ok? && HitOf(rule, c).Ok? && RunRules(rules, c) == Step(RunRules(init, c).value, rule, c)
  {
    hide HitOf, AddMatch;
  }

  ghost predicate AllChecked(rules: seq<Rule>, regex: Regex) {
    forall i :: 0 <= i < |rules| ==> Check(rules[i].condition, regex, 0).Ok?
  }

  lemma CheckedLast(rules: seq<Rule>, regex: Regex)
    requires rules != [] && AllChecked(rules, regex)
    ensures AllChecked(rules[..|rules| - 1], regex) && Check(rules[|rules| - 1].condition, regex, 0).Ok?
  {
    hide Check;
  }

  lemma {:induction false} LoopIsMeant(rules: seq<Rule>, c: Context)
    requires RunRules(rules, c).Ok? && AllChecked(rules, c.regex)
    ensures LoopMeant(RunRules(rules, c).value, rules, c)
  {
    hide HitOf, LoopMeant, Check, Step, RunRules, AllChecked;
    if rules == [] {
      NothingMeant(c);
    } else {
      var init, rule := rules[..|rules| - 1], rules[|rules| - 1];
      LastRule(rules, c);
      CheckedLast(rules, c.regex);
      LoopIsMeant(init, c);
      StepKeepsMeant(RunRules(init, c).value, init, rule, c);
      assert rules == init + [rule];
    }
  }

  lemma NothingMeant(c: Context)
    ensures RunRules([], c) == Ok(Loop([], map[], "")) && LoopMeant(Loop([], map[], ""), [], c)
  {
    hide Means;
    assert RulesOf([]) == [];
  }

  // ------------------------------------------------------------------ order of rules

  lemma UnkeyedOfPieces(xs: seq<Keyed<Rule>>, ys: seq<Keyed<Rule>>)
    ensures Unkeyed(xs + ys) == Unkeyed(xs) + Unkeyed(ys)
  {
    hide Unkeyed;
  }

  lemma {:induction false} InsertKeepsRules(x: Keyed<Rule>, xs: seq<Keyed<Rule>>)
    ensures multiset(Unkeyed(Insert(x, xs))) == multiset{x.value} + multiset(Unkeyed(xs))
  {
    UnkeyedOfPieces([x], xs);
    assert Unkeyed([x]) == [x.value];
    if xs != [] && !Leq(x.key, xs[0].key) {
      InsertKeepsRules(x, xs[1..]);
      UnkeyedOfPieces([xs[0]], Insert(x, xs[1..]));
      assert Unkeyed([xs[0]]) == [xs[0].value];
      assert Unkeyed(xs) == [xs[0].value] + Unkeyed(xs[1..]);
    }
  }

  lemma {:induction false} SortKeepsRules(xs: seq<Keyed<Rule>>)
    ensures multiset(Unkeyed(Sort(xs))) == multiset(Unkeyed(xs))
  {
    if xs != [] {
      SortKeepsRules(xs[1..]);
      InsertKeepsRules(xs[0], Sort(xs[1..]));
      assert Unkeyed(xs) == [xs[0].value] + Unkeyed(xs[1..]);
    }
  }

  lemma {:induction false} ActiveCounts(rules: seq<Rule>, rule: Rule)
    ensures multiset(Unkeyed(ActiveKeyed(rules)))[rule] == if rule.active then multiset(rules)[rule] else 0
  {
    if rules != [] {
      hide SortKey, Unkeyed;
      ActiveCounts(rules[1..], rule);
      HeadAndTail(rules);
      var x := Keyed(SortKey(rules[0]), rules[0]);
      UnkeyedOfPieces([x], ActiveKeyed(rules[1..]));
      OneUnkeyed(x);
      assert [] + ActiveKeyed(rules[1..]) == ActiveKeyed(rules[1..]);
    }
  }

  lemma OneUnkeyed(x: Keyed<Rule>)
    ensures Unkeyed([x]) == [x.value]
  {
    assert [x][1..] == [];
  }

  /** The loop runs through the active rules, each as often as the set has it. */
  lemma InOrderCounts(rules: seq<Rule>, rule: Rule)
    ensures multiset(InOrder(rules))[rule] == if rule.active then multiset(rules)[rule] else 0
  {
    hide Sort, ActiveKeyed;
    SortKeepsRules(ActiveKeyed(rules));
    ActiveCounts(rules, rule);
  }

  lemma KeysInOrder(x: Rule, y: Rule)
    requires Leq(SortKey(x), SortKey(y))
    ensures Before(x, y)
  {
    assert SortKey(x)[1..] == x.key && SortKey(y)[1..] == y.key;
    assert SortKey(x)[0] == x.order as char && SortKey(y)[0] == y.order as char;
  }

  lemma {:induction false} KeyedAreKeyed(rules: seq<Rule>, x: Keyed<Rule>)
    requires x in ActiveKeyed(rules)
    ensures x.key == SortKey(x.value)
  {
    hide SortKey;
    if !(rules[0].active && x == Keyed(SortKey(rules[0]), rules[0])) {
      KeyedAreKeyed(rules[1..], x);
    }
  }

  lemma InOrderIsOrdered(rules: seq<Rule>, i: nat, j: nat)
    requires i < j < |InOrder(rules)|
    ensures Before(InOrder(rules)[i], InOrder(rules)[j])
  {
    hide Sort, SortKey, Leq, Before;
    var xs := ActiveKeyed(rules);
    SortSorts(xs);
    SameMembers(Sort(xs), xs);
    assert Sort(xs)[i] in Sort(xs) && Sort(xs)[j] in Sort(xs);
    KeyedAreKeyed(rules, Sort(xs)[i]);
    KeyedAreKeyed(rules, Sort(xs)[j]);
    KeysInOrder(Sort(xs)[i].value, Sort(xs)[j].value);
  }

  lemma {:induction false} MatchesFollowRules(rules: seq<Rule>, c: Context)
    requires RunRules(rules, c).Ok? && forall i, j :: 0 <= i < j < |rules| ==> Before(rules[i], rules[j])
    ensures var ms := RunRules(rules, c).value.matches;
      && (forall i :: 0 <= i < |ms| ==> ms[i].rule in rules)
      && forall i, j :: 0 <= i < j < |ms| ==> Before(ms[i].rule, ms[j].rule)
  {
    hide HitOf, UnderCap, Before, Used, Capped;
    if rules != [] {
      var n := |rules| - 1;
      MatchesFollowRules(rules[..n], c);
      forall x | x in rules[..n] ensures Before(x, rules[n]) {
      }
    }
  }

  // ------------------------------------------------------------------ the whole score

  lemma {:induction false} PointsInLast(ms: seq<Matched>, d: string)
    requires ms != []
    ensures PointsIn(ms, d) == PointsIn(ms[..|ms| - 1], d) + if ms[|ms| - 1].rule.dimension == d then ms[|ms| - 1].effective else 0
  {
    if |ms| == 1 {
      assert ms[..0] == [] && ms[1..] == [];
    } else {
      PointsInLast(ms[1..], d);
      assert ms[1..][..|ms| - 2] == ms[..|ms| - 1][1..];
    }
  }

  lemma {:induction false} RawIsPointsIn(ms: seq<Matched>, d: string)
    ensures Raw(ms, d) == PointsIn(ms, d)
  {
    if ms != [] {
      RawIsPointsIn(ms[..|ms| - 1], d);
      PointsInLast(ms, d);
    }
  }

  lemma OutcomeDimensions(rs: RuleSet, s: Loop)
    requires Outcome(rs, s).Ok?
    ensures Outcome(rs, s).value.contributions == s.matches && DimensionsHold(Outcome(rs, s).value)
  {
    hide Raw, PointsIn, Detail, Grade, TiedProducts, KnownDimensions;
    forall d ensures Raw(s.matches, d) == PointsIn(s.matches, d) {
      RawIsPointsIn(s.matches, d);
    }
  }

  /**
   What a score of a set whose active rules passed the validator holds: its contributions are exactly the
   active rules whose condition means something true of the facts, by order and key; each has the latest
   observation its condition names, the multiplier of that age and the rounded, capped points; and every
   dimension is the sum of its contributions between 0 and 100.
   */
  lemma ScoreMeans(c: Company, rs: RuleSet, rows: seq<Signal>, asOf: Time, regex: Regex, show: seq<string> -> string)
    requires Score(c, rs, rows, asOf, regex, show).Ok? && RulesChecked(rs, regex)
    ensures SnapshotMeant(Score(c, rs, rows, asOf, regex, show).value, c, rs, rows, asOf, regex, show)
  {
    hide RunRules, InOrder, Outcome, Means, ContributionHolds, DimensionsHold, FactsOf, AreFactsOf, Before, Check;
    var rules, context := InOrder(rs.rules), ContextOf(c, rows, asOf, regex, show);
    var loop := RunRules(rules, context).value;
    forall rule: Rule ensures multiset(rules)[rule] == if rule.active then multiset(rs.rules)[rule] else 0 {
      InOrderCounts(rs.rules, rule);
    }
    forall i | 0 <= i < |rules| ensures Check(rules[i].condition, regex, 0).Ok? {
      assert rules[i] in multiset(rules);
      assert rules[i] in multiset(rs.rules);
    }
    LoopIsMeant(rules, context);
    forall i, j | 0 <= i < j < |rules| ensures Before(rules[i], rules[j]) {
      InOrderIsOrdered(rs.rules, i, j);
    }
    MatchesFollowRules(rules, context);
    OutcomeDimensions(rs, loop);
    forall facts | AreFactsOf(facts, c, rows, show) ensures RulesMeant(loop.matches, rs.rules, facts, regex) {
      FactsAreSeen(facts, c, rows, show);
    }
  }
}
