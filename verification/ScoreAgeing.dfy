/** Ageing never promotes: a later instant over the same visible signals raises nothing. */
module ScoreAgeing {
  import opened Basics
  import opened Numbers
  import opened Conditions
  import opened Rounding
  import opened ScoringEngine
  import opened ScoreOrder

  ghost predicate NonIncreasing(curve: seq<Bucket>) {
    && (forall i :: 0 <= i < |curve| ==> curve[i].multiplier.Finite? && curve[i].multiplier.value >= 0.0)
    && (forall i, j :: 0 <= i < j < |curve| ==> curve[i].multiplier.value >= curve[j].multiplier.value)
  }

  lemma {:induction false} LookupFalls(curve: seq<Bucket>, a: nat, b: nat)
    requires NonIncreasing(curve) && a <= b
    ensures Lookup(curve, a).Ok? && Lookup(curve, b).Ok? && 0.0 <= Lookup(curve, b).value <= Lookup(curve, a).value
  {
    if curve != [] {
      assert forall i :: 0 <= i < |curve[1..]| ==> curve[1..][i] == curve[i + 1];
      LookupFalls(curve[1..], a, b);
      LookupAtMostHead(curve, b);
    }
  }

  lemma {:induction false} LookupAtMostHead(curve: seq<Bucket>, age: nat)
    requires NonIncreasing(curve) && curve != []
    ensures Lookup(curve, age).Ok? && Lookup(curve, age).value <= curve[0].multiplier.value
  {
    if |curve| > 1 {
      assert forall i :: 0 <= i < |curve[1..]| ==> curve[1..][i] == curve[i + 1];
      LookupAtMostHead(curve[1..], age);
    }
  }

  // Nonnegative points, no cap, a curve that does not rise.
  ghost predicate Ages(rule: Rule) {
    rule.points >= 0 && (rule.groupKey == "" || rule.groupCap.None?) && (rule.decays ==> NonIncreasing(CurveOf(rule)))
  }

  lemma MultiplierFalls(rule: Rule, observedAt: Option<Time>, t: Time, u: Time)
    requires Ages(rule) && t <= u
    ensures Multiplier(rule, observedAt, t).Ok? && Multiplier(rule, observedAt, u).Ok?
    ensures 0.0 <= Multiplier(rule, observedAt, u).value <= Multiplier(rule, observedAt, t).value
  {
    hide Lookup, NonIncreasing, CurveOf;
    if rule.decays && observedAt.Some? {
      assert AgeDays(observedAt.value, t) <= AgeDays(observedAt.value, u);
      LookupFalls(CurveOf(rule), AgeDays(observedAt.value, t), AgeDays(observedAt.value, u));
    }
  }

  // A rule that hits at both times, or at neither, earns no more at the later one.
  lemma HitFalls(rule: Rule, c: Context, later: Time)
    requires Ages(rule) && c.asOf <= later && HitOf(rule, c).Ok?
    ensures var d := c.(asOf := later);
      && HitOf(rule, d).Ok? && (HitOf(rule, c).value.Some? <==> HitOf(rule, d).value.Some?)
      && (HitOf(rule, c).value.Some? ==> HitOf(rule, d).value.value.effective <= HitOf(rule, c).value.value.effective)
  {
    hide Evaluate, SignalTypes, Latest, Times, Multiplier, NonIncreasing;
    if HitOf(rule, c).value.Some? {
      var observedAt := Latest(c.signals, SignalTypes(rule.condition).value);
      MultiplierFalls(rule, observedAt, c.asOf, later);
      var m, n := Multiplier(rule, observedAt, c.asOf).value, Multiplier(rule, observedAt, later).value;
      TimesMonotone(rule.points, rule.points, n, m);
      TimesNonNegative(rule.points, n);
    }
  }

  lemma TimesNonNegative(x: Milli, c: real)
    requires x >= 0 && c >= 0.0
    ensures Times(x, c) >= 0
  {
    TimesMonotone(0, x, c, c);
    assert Scaled(0, c) == 0.0;
  }

  // The same rules matched, each with no more points.
  ghost predicate Aged(young: seq<Matched>, aged: seq<Matched>) {
    |young| == |aged| && forall i :: 0 <= i < |young| ==> aged[i].rule == young[i].rule && aged[i].effective <= young[i].effective
  }

  lemma StepAges(s: Loop, t: Loop, rule: Rule, h: Hit, k: Hit)
    requires Aged(s.matches, t.matches) && s.critical == t.critical && Ages(rule) && k.effective <= h.effective
    ensures var a, b := AddMatch(s, rule, h.multiplier, h.effective, h.observedAt), AddMatch(t, rule, k.multiplier, k.effective, k.observedAt);
      Aged(a.matches, b.matches) && a.critical == b.critical
  {
    hide NonIncreasing;
  }

  lemma {:induction false} LoopAges(rules: seq<Rule>, c: Context, later: Time)
    requires RunRules(rules, c).Ok? && c.asOf <= later && forall i :: 0 <= i < |rules| ==> Ages(rules[i])
    ensures var d := c.(asOf := later);
      RunRules(rules, d).Ok? && Aged(RunRules(rules, c).value.matches, RunRules(rules, d).value.matches)
      && RunRules(rules, c).value.critical == RunRules(rules, d).value.critical
  {
    hide HitOf, AddMatch, Aged, Ages;
    var d := c.(asOf := later);
    if rules == [] {
      NothingAges();
    } else {
      var init, rule := rules[..|rules| - 1], rules[|rules| - 1];
      LoopAges(init, c, later);
      HitFalls(rule, c, later);
      if HitOf(rule, c).value.Some? {
        StepAges(RunRules(init, c).value, RunRules(init, d).value, rule, HitOf(rule, c).value.value, HitOf(rule, d).value.value);
      }
    }
  }

  lemma NothingAges()
    ensures Aged([], [])
  {
  }

  lemma {:induction false} RawAges(young: seq<Matched>, aged: seq<Matched>, d: string)
    requires Aged(young, aged)
    ensures Raw(aged, d) <= Raw(young, d)
  {
    if young != [] {
      RawAges(young[..|young| - 1], aged[..|young| - 1], d);
    }
  }

  // No dimension grew.
  ghost predicate NoLarger(young: map<string, Milli>, aged: map<string, Milli>) {
    young.Keys == aged.Keys && forall d :: d in young ==> aged[d] <= young[d]
  }

  lemma DimensionsAge(young: seq<Matched>, aged: seq<Matched>)
    requires Aged(young, aged)
    ensures NoLarger(Dimensions(young), Dimensions(aged))
  {
    hide Raw, Clamp, Aged;
    forall d | d in DIMENSIONS ensures Dimensions(aged)[d] <= Dimensions(young)[d] {
      RawAges(young, aged, d);
      ClampMonotone(Raw(aged, d), Raw(young, d));
    }
  }

  ghost predicate NonNegative(formula: seq<Term>) {
    forall i :: 0 <= i < |formula| ==> formula[i].coefficient.Finite? && formula[i].coefficient.value >= 0.0
  }

  lemma {:induction false} SumOfLower(xs: seq<Milli>, ys: seq<Milli>)
    requires |xs| == |ys| && forall i :: 0 <= i < |xs| ==> xs[i] <= ys[i]
    ensures Sum(xs) <= Sum(ys)
  {
    if xs != [] {
      SumOfLower(xs[1..], ys[1..]);
    }
  }

  lemma PriorityAges(formula: seq<Term>, young: map<string, Milli>, aged: map<string, Milli>, target: Target)
    requires NonNegative(formula) && NoLarger(young, aged)
    requires Detail(formula, young, BestOf(target, young)).Ok? && Detail(formula, aged, BestOf(target, aged)).Ok?
    ensures Priority(Detail(formula, aged, BestOf(target, aged)).value) <= Priority(Detail(formula, young, BestOf(target, young)).value)
  {
    hide Times, Clamp, Sum, Detail, BestOf, At, NoLarger;
    var x, y := BestOf(target, aged), BestOf(target, young);
    BestAges(young, aged, target);
    var xs, ys := WeightsOf(Detail(formula, aged, x).value), WeightsOf(Detail(formula, young, y).value);
    forall i | 0 <= i < |formula| ensures xs[i] <= ys[i] {
      var k := formula[i].coefficient.value;
      TimesMonotone(FormulaValue(formula[i].name, aged, x), FormulaValue(formula[i].name, young, y), k, k);
    }
    SumOfLower(xs, ys);
    ClampMonotone(Sum(xs), Sum(ys));
  }

  lemma BestAges(young: map<string, Milli>, aged: map<string, Milli>, target: Target)
    requires NoLarger(young, aged)
    ensures BestOf(target, aged) <= BestOf(target, young) && forall d :: At(aged, d) <= At(young, d)
  {
  }

  // The minimum of the class the thresholds give.
  function RankIn(ts: seq<Threshold>, priority: Milli): Option<Number> {
    if ts == [] then None else if Reaches(priority, ts[0].min) then Some(ts[0].min) else RankIn(ts[1..], priority)
  }

  function Rank(ts: seq<Threshold>, priority: Milli): Option<Number>
    requires AllComparable(ts)
  {
    RankIn(SortThresholds(ts), priority)
  }

  lemma {:induction false} RankFalls(ts: seq<Threshold>, p: Milli, q: Milli)
    requires AllComparable(ts) && Descending(ts) && p <= q
    ensures RankIn(ts, p).Some? ==> RankIn(ts, q).Some? && AtMost(RankIn(ts, p).value, RankIn(ts, q).value)
  {
    if ts != [] {
      RankFalls(ts[1..], p, q);
      if Reaches(q, ts[0].min) {
        RankAtMostHead(ts, p);
      }
    }
  }

  lemma {:induction false} RankAtMostHead(ts: seq<Threshold>, p: Milli)
    requires AllComparable(ts) && Descending(ts) && ts != []
    ensures RankIn(ts, p).Some? ==> AtMost(RankIn(ts, p).value, ts[0].min)
  {
    if |ts| > 1 {
      RankAtMostHead(ts[1..], p);
    }
  }

  // What two instants that see the same signals give: nothing larger at the later one.
  ghost predicate NotPromoted(ts: seq<Threshold>, young: Snapshot, aged: Snapshot)
    requires AllComparable(ts)
  {
    && NoLarger(young.dimensions, aged.dimensions) && aged.priority <= young.priority
    && (Rank(ts, aged.priority).Some? ==>
          Rank(ts, young.priority).Some? && AtMost(Rank(ts, aged.priority).value, Rank(ts, young.priority).value))
  }

  lemma OutcomeAges(rs: RuleSet, s: Loop, t: Loop)
    requires Aged(s.matches, t.matches) && NonNegative(rs.formula) && AllComparable(rs.thresholds)
    requires Outcome(rs, s).Ok? && Outcome(rs, t).Ok?
    ensures NotPromoted(rs.thresholds, Outcome(rs, s).value, Outcome(rs, t).value)
  {
    hide Grade, TiedProducts, KnownDimensions, Detail, Priority, Dimensions, NoLarger, NonNegative, BestOf, Aged, AtMost;
    DimensionsAge(s.matches, t.matches);
    PriorityAges(rs.formula, Dimensions(s.matches), Dimensions(t.matches), rs.target);
    SortDescends(rs.thresholds);
    RankFalls(SortThresholds(rs.thresholds), Outcome(rs, t).value.priority, Outcome(rs, s).value.priority);
  }

  /**
   Ageing never promotes: while the same signals are visible, in whatever order their query returns
   them, with nonnegative points and coefficients, no group caps and curves that do not rise, a later
   instant gives no larger dimension, no larger priority and no higher threshold.
   */
  lemma AgeingNeverPromotes(c: Company, rs: RuleSet, rows: seq<Signal>, again: seq<Signal>, t: Time, u: Time,
                            regex: Regex, show: seq<string> -> string)
    requires t <= u && multiset(rows) == multiset(again) && ShownAlike(rs, rows, again, show) && DistinctRules(rs.rules)
    requires (forall r :: r in rs.rules ==> Ages(r)) && NonNegative(rs.formula) && AllComparable(rs.thresholds)
    requires Score(c, rs, rows, t, regex, show).Ok? && Score(c, rs, again, u, regex, show).Ok?
    ensures NotPromoted(rs.thresholds, Score(c, rs, rows, t, regex, show).value, Score(c, rs, again, u, regex, show).value)
  {
    hide RunRules, InOrder, Outcome, Ages, FactsOf, ShownAlike, NotPromoted, Aged, DistinctRules;
    var rules, context := InOrder(rs.rules), ContextOf(c, rows, t, regex, show);
    forall i | 0 <= i < |rules| ensures Ages(rules[i]) {
      InOrderAreRules(rs.rules, rules[i]);
    }
    LoopAges(rules, context, u);
    LoopPermute(c, rs, rs, rows, again, u, regex, show);
    OutcomeAges(rs, RunRules(rules, context).value, RunRules(rules, context.(asOf := u)).value);
  }
}
