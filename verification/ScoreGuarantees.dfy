/**
 What validation guarantees about scores: exactly when a validated rule set scores a company, exactly
 when ageing never promotes, and the accepted configurations that make the engine raise.
 */
module ScoreGuarantees {
  import opened Basics
  import opened Text
  import opened Numbers
  import opened Ordering
  import JsonText
  import opened Conditions
  import opened Rounding
  import opened ScoringEngine
  import opened ScoreCalculation
  import opened GroupCaps
  import opened ScoreOrder
  import opened ScoreAgeing
  import opened RuleSetValidation

  // ----------------------------------------------------------------- the rules of a set

  // The leaves find numbers, short texts and hashable items, and where the condition holds every item is hashable.
  ghost predicate RuleWorks(rule: Rule, facts: Facts, regex: Regex) {
    Computes(rule.condition, facts)
    && (Evaluate(rule.condition, facts, regex, 0) == Ok(true) ==> SignalItemsHashable(rule.condition))
  }

  ghost predicate ActiveRulesWork(rs: RuleSet, facts: Facts, regex: Regex) {
    forall i :: 0 <= i < |rs.rules| && rs.rules[i].active ==> RuleWorks(rs.rules[i], facts, regex)
  }

  lemma MultiplierIsFine(rule: Rule, observedAt: Option<Time>, asOf: Time)
    requires rule.decays ==> ValidCurve(rule.curve)
    ensures Multiplier(rule, observedAt, asOf).Ok? && 0.0 <= Multiplier(rule, observedAt, asOf).value <= 1.0
  {
    hide Lookup;
    if rule.decays && observedAt.Some? {
      LookupIsCovering(CurveOf(rule), AgeDays(observedAt.value, asOf));
    }
  }

  lemma SmallFits(p: Points, m: real)
    requires 0.0 <= m <= 1.0
    ensures Quantized(p, m).Some?
  {
    if p >= 0 {
      TimesMonotone(p, p, m, 1.0);
      TimesMonotone(0, p, m, m);
    } else {
      TimesMonotone(p, 0, m, m);
      ScaledMonotone(-p, -p, m, 1.0);
      assert Scaled(p, m) >= p as real;
      RoundMonotone(p as real, Scaled(p, m));
    }
    assert Scaled(0, m) == 0.0;
  }

  lemma ValidRuleHits(rule: Rule, c: Context, target: Target)
    requires ValidRule(rule, target, c.regex)
    ensures HitOf(rule, c).Ok? <==> RuleWorks(rule, c.facts, c.regex)
  {
    hide Evaluate, Check, SignalTypes, SignalItemsHashable, Multiplier, Latest, Quantized, ValidCurve, Computes;
    SignalTypesExactly(rule.condition, c.regex, 0);
    CheckedEvaluates(rule.condition, c.facts, c.regex, 0);
    if SignalTypes(rule.condition).Ok? {
      var observedAt := Latest(c.signals, SignalTypes(rule.condition).value);
      MultiplierIsFine(rule, observedAt, c.asOf);
      SmallFits(rule.points, Multiplier(rule, observedAt, c.asOf).value);
    }
  }

  lemma ValidLoopSucceeds(rs: RuleSet, c: Context)
    requires ValidRules(rs.rules, rs.target, c.regex)
    ensures RunRules(InOrder(rs.rules), c).Ok? <==> ActiveRulesWork(rs, c.facts, c.regex)
  {
    hide HitOf, RuleWorks, InOrder, RunRules, ValidRule;
    var rules := InOrder(rs.rules);
    LoopSucceedsExactly(rules, c);
    forall i | 0 <= i < |rs.rules| && rs.rules[i].active ensures rs.rules[i] in rules {
      ActiveIsInOrder(rs.rules, rs.rules[i]);
    }
    forall i | 0 <= i < |rules|
      ensures exists j :: 0 <= j < |rs.rules| && rs.rules[j].active && rs.rules[j] == rules[i] && (HitOf(rules[i], c).Ok? <==> RuleWorks(rules[i], c.facts, c.regex))
    {
      InOrderAreRules(rs.rules, rules[i]);
      var j :| 0 <= j < |rs.rules| && rs.rules[j] == rules[i];
      ValidRuleHits(rules[i], c, rs.target);
    }
  }

  lemma {:induction false} MatchesComeFromRules(rules: seq<Rule>, c: Context, target: Target)
    requires RunRules(rules, c).Ok? && ValidRules(rules, target, c.regex)
    ensures KnownDimensions(RunRules(rules, c).value.matches)
  {
    hide HitOf, ValidCurve, Check;
    if rules != [] {
      MatchesComeFromRules(rules[..|rules| - 1], c, target);
    }
  }

  lemma InOrderIsValid(rs: RuleSet, regex: Regex)
    requires ValidRules(rs.rules, rs.target, regex)
    ensures ValidRules(InOrder(rs.rules), rs.target, regex)
  {
    hide ValidRule, InOrder;
    var rules := InOrder(rs.rules);
    forall i | 0 <= i < |rules| ensures ValidRule(rules[i], rs.target, regex) {
      InOrderAreRules(rs.rules, rules[i]);
      var j :| 0 <= j < |rs.rules| && rs.rules[j] == rules[i];
    }
  }

  // -------------------------------------------------------------------------- the formula

  // A finite coefficient whose product with 100 points still has at most 28 digits.
  predicate FitsQuantize(n: Number) {
    n.Finite? && Quantized(HUNDRED, n.value).Some?
  }

  predicate FormulaFits(formula: seq<Term>) {
    forall i :: 0 <= i < |formula| ==> FitsQuantize(formula[i].coefficient)
  }

  // What the dimensions of a score can be.
  ghost predicate InBounds(dims: map<string, Milli>) {
    dims.Keys == DIMENSIONS && forall d :: d in dims ==> 0 <= dims[d] <= HUNDRED
  }

  lemma SmallerFits(x: Milli, k: real)
    requires 0 <= x <= HUNDRED && Quantized(HUNDRED, k).Some?
    ensures Quantized(x, k).Some?
  {
    hide Times;
    var zero := Times(0, k);
    assert zero == 0 by { NothingTimes(k); }
    if k >= 0.0 {
      TimesMonotone(0, x, k, k);
      TimesMonotone(x, HUNDRED, k, k);
    } else {
      TimesAntitone(0, x, k);
      TimesAntitone(x, HUNDRED, k);
    }
  }

  lemma NothingTimes(k: real)
    ensures Times(0, k) == 0
  {
    assert Scaled(0, k) == 0.0;
  }

  lemma TimesAntitone(x: Milli, y: Milli, k: real)
    requires x <= y && k <= 0.0
    ensures Times(y, k) <= Times(x, k)
  {
    assert (y - x) as real * k <= 0.0;
    assert Scaled(y, k) <= Scaled(x, k);
    hide Scaled;
    RoundMonotone(Scaled(y, k), Scaled(x, k));
  }

  /**
   The formula of a validated set can be computed on whatever dimensions exactly when each coefficient
   is finite and its product with 100 points fits: a caller can check that before any score.
   */
  lemma FormulaFitsExactly(rs: RuleSet)
    requires ValidFormula(rs)
    ensures (forall dims :: InBounds(dims) ==> Detail(rs.formula, dims, BestOf(rs.target, dims)).Ok?) <==> FormulaFits(rs.formula)
  {
    hide Detail, Quantized, ValidFormula;
    if FormulaFits(rs.formula) {
      forall dims | InBounds(dims) ensures Detail(rs.formula, dims, BestOf(rs.target, dims)).Ok? {
        FittingFormulaSucceeds(rs, dims);
      }
    } else {
      var full: map<string, Milli> := map d | d in DIMENSIONS :: HUNDRED;
      assert InBounds(full);
      DetailSucceedsExactly(rs.formula, full, BestOf(rs.target, full));
      var i :| 0 <= i < |rs.formula| && !FitsQuantize(rs.formula[i].coefficient);
      FullValue(rs, full, i);
    }
  }

  lemma FullValue(rs: RuleSet, full: map<string, Milli>, i: nat)
    requires ValidFormula(rs) && i < |rs.formula| && full == map d | d in DIMENSIONS :: HUNDRED
    ensures FormulaValue(rs.formula[i].name, full, BestOf(rs.target, full)) == HUNDRED
  {
    assert rs.formula[i].name in Names(rs.formula);
  }

  lemma FittingFormulaSucceeds(rs: RuleSet, dims: map<string, Milli>)
    requires FormulaFits(rs.formula) && InBounds(dims)
    ensures Detail(rs.formula, dims, BestOf(rs.target, dims)).Ok?
  {
    hide Detail, Quantized;
    DetailSucceedsExactly(rs.formula, dims, BestOf(rs.target, dims));
    forall i | 0 <= i < |rs.formula| ensures WeightedTerm(rs.formula[i], dims, BestOf(rs.target, dims)).Ok? {
      SmallerFits(FormulaValue(rs.formula[i].name, dims, BestOf(rs.target, dims)), rs.formula[i].coefficient.value);
    }
  }

  // ------------------------------------------------------------------ when a score exists

  // Every class fits the column of the stored classification.
  predicate ClassesFit(ts: seq<Threshold>) {
    forall i :: 0 <= i < |ts| ==> |ts[i].classification| <= CLASSIFICATION_WIDTH
  }

  lemma DimensionsInBounds(ms: seq<Matched>)
    ensures InBounds(Dimensions(ms))
  {
    hide Raw;
  }

  lemma OutcomeExists(rs: RuleSet, s: Loop)
    requires ValidThresholds(rs.thresholds) && FormulaFits(rs.formula) && ClassesFit(rs.thresholds) && KnownDimensions(s.matches)
    ensures Outcome(rs, s).Ok?
  {
    hide Detail, Dimensions, KnownDimensions, Classify, TiedProducts, Clamp, BestOf, FormulaFits, ValidThresholds;
    DimensionsInBounds(s.matches);
    FittingFormulaSucceeds(rs, Dimensions(s.matches));
    ClassificationIsTotal(rs.thresholds, Priority(Detail(rs.formula, Dimensions(s.matches), BestOf(rs.target, Dimensions(s.matches))).value));
  }

  /**
   A validated rule set whose coefficients fit and whose classes fit their column scores a company of
   its target exactly when the leaves of every active condition find numbers, short texts and hashable
   items in the company's facts and, where the condition holds, it names no list or mapping among its
   HAS_SIGNAL items: no curve, cap, threshold or dimension can fail.
   */
  lemma ValidSetsScore(c: Company, rs: RuleSet, rows: seq<Signal>, asOf: Time, regex: Regex, show: seq<string> -> string)
    requires Valid(rs, regex) && rs.target == c.target && FormulaFits(rs.formula) && ClassesFit(rs.thresholds)
    ensures Score(c, rs, rows, asOf, regex, show).Ok? <==> ActiveRulesWork(rs, FactsOf(c, rows, show), regex)
  {
    hide RunRules, InOrder, Outcome, ActiveRulesWork, FactsOf, ValidRules, FormulaFits, ClassesFit, ValidThresholds, ValidFormula, KnownDimensions;
    var context := ContextOf(c, rows, asOf, regex, show);
    ValidLoopSucceeds(rs, context);
    InOrderIsValid(rs, regex);
    if RunRules(InOrder(rs.rules), context).Ok? {
      MatchesComeFromRules(InOrder(rs.rules), context, rs.target);
      OutcomeExists(rs, RunRules(InOrder(rs.rules), context).value);
    }
  }

  /** With scalar conditions and no ordering, BETWEEN or REGEX such a set scores every company of its target. */
  lemma PlainSetsScoreEveryCompany(c: Company, rs: RuleSet, rows: seq<Signal>, asOf: Time, regex: Regex, show: seq<string> -> string)
    requires Valid(rs, regex) && rs.target == c.target && FormulaFits(rs.formula) && ClassesFit(rs.thresholds)
    requires forall i :: 0 <= i < |rs.rules| ==> Plain(rs.rules[i].condition) && NeedsNoNumbers(rs.rules[i].condition)
    ensures Score(c, rs, rows, asOf, regex, show).Ok?
  {
    hide Score, Evaluate, Check, Plain, NeedsNoNumbers, SignalItemsHashable, Computes, ValidFormula, ValidThresholds, FormulaFits, ClassesFit, FactsOf;
    var facts := FactsOf(c, rows, show);
    forall i | 0 <= i < |rs.rules| && rs.rules[i].active ensures RuleWorks(rs.rules[i], facts, regex) {
      NeedsNoNumbersComputes(rs.rules[i].condition, facts);
      PlainIsHashable(rs.rules[i].condition);
    }
    ValidSetsScore(c, rs, rows, asOf, regex, show);
  }

  // ------------------------------------------------------------- rule sets of one rule

  function SoleRule(dimension: string, condition: JsonText.Json, points: Points, curve: seq<Bucket>): Rule {
    Rule("sole", 0, dimension, condition, points, curve != [], curve, "", "", None, true)
  }

  // An industry set: the best product, less what the ICP coefficient takes.
  function OneRule(rule: Rule, icp: Number): RuleSet {
    RuleSet(Industry, [Term("ICP", icp), Term("BEST_PRODUCT", Finite(1.0)), Term("INTENT", Finite(0.0))],
            [Threshold(Finite(0.0), "COLD")], ["MES", "CMMS", "PULSE"], [rule])
  }

  predicate NotPositive(n: Number) {
    n == Infinite(true) || (n.Finite? && n.value <= 0.0)
  }

  lemma OneRuleIsValid(rule: Rule, icp: Number, regex: Regex)
    requires NotPositive(icp) && ValidRule(rule, Industry, regex)
    ensures Valid(OneRule(rule, icp), regex)
  {
    hide Check, ValidCurve;
    var rs := OneRule(rule, icp);
    var f := rs.formula;
    assert f[..3] == f && f[..3][..2] == f[..2] && f[..2][..1] == f[..1] && f[..1][..0] == [];
    assert PositiveSum(f[..1]) == 0.0 && PositiveSum(f[..2]) == 1.0 && PositiveSum(f) == 1.0;
    assert f[0].name == "ICP" && f[1].name == "BEST_PRODUCT" && f[2].name == "INTENT";
    assert rs.thresholds[0].min == Finite(0.0);
    assert rs.tieOrder[0] == "MES" && rs.tieOrder[1] == "CMMS" && rs.tieOrder[2] == "PULSE";
  }

  function LoopOf(rule: Rule, hit: Option<Hit>): Loop {
    match hit
    case None => Loop([], map[], "")
    case Some(h) => AddMatch(Loop([], map[], ""), rule, h.multiplier, h.effective, h.observedAt)
  }

  lemma OneRuleLoop(rule: Rule, c: Context)
    requires rule.active
    ensures RunRules(InOrder([rule]), c) == match HitOf(rule, c) case Err(e) => Err(e) case Ok(hit) => Ok(LoopOf(rule, hit))
  {
    hide HitOf, AddMatch, SortKey;
    var xs := [Keyed(SortKey(rule), rule)];
    assert [rule][1..] == [] && xs[1..] == [];
    assert ActiveKeyed([rule]) == xs + ActiveKeyed([]);
    assert Sort(xs) == xs;
    assert Unkeyed(xs) == [rule] + Unkeyed([]);
    assert [rule][..0] == [];
  }

  lemma OneRuleScore(c: Company, rule: Rule, icp: Number, rows: seq<Signal>, asOf: Time, regex: Regex, show: seq<string> -> string)
    requires c.target == Industry && rule.active
    ensures Score(c, OneRule(rule, icp), rows, asOf, regex, show)
         == match HitOf(rule, ContextOf(c, rows, asOf, regex, show))
            case Err(e) => Err(e)
            case Ok(hit) => Outcome(OneRule(rule, icp), LoopOf(rule, hit))
  {
    hide Outcome, RunRules, InOrder, ContextOf;
    OneRuleLoop(rule, ContextOf(c, rows, asOf, regex, show));
  }

  // What a hit without a cap gives to its dimension.
  function HitPoints(hit: Option<Hit>): Milli {
    match hit case None => 0 case Some(h) => Clamp(h.effective)
  }

  lemma OneRuleDimensions(rule: Rule, hit: Option<Hit>)
    requires rule.groupKey == "" && rule.dimension in DIMENSIONS
    ensures var ms := LoopOf(rule, hit).matches;
      KnownDimensions(ms) && Dimensions(ms) == map d | d in DIMENSIONS :: if d == rule.dimension then HitPoints(hit) else 0
  {
    hide Clamp;
    var ms := LoopOf(rule, hit).matches;
    NothingRaw();
    forall d ensures Raw(ms, d) == if hit.Some? && d == rule.dimension then hit.value.effective else 0 {
      if hit.Some? {
        assert ms[..0] == [];
      }
    }
    assert Clamp(0) == 0 by { NothingClamps(); }
  }

  lemma NothingClamps()
    ensures Clamp(0) == 0
  {
  }

  // The rule by itself decides its dimension.
  lemma OneRuleDimension(c: Company, rule: Rule, icp: Number, rows: seq<Signal>, asOf: Time, regex: Regex, show: seq<string> -> string)
    requires c.target == Industry && rule.active && rule.groupKey == "" && rule.dimension in DIMENSIONS
    requires NotPositive(icp) && FitsQuantize(icp) && HitOf(rule, ContextOf(c, rows, asOf, regex, show)).Ok?
    ensures var s := Score(c, OneRule(rule, icp), rows, asOf, regex, show);
      s.Ok? && At(s.value.dimensions, rule.dimension) == HitPoints(HitOf(rule, ContextOf(c, rows, asOf, regex, show)).value)
  {
    hide Score, HitOf, ContextOf, LoopOf, KnownDimensions, Detail, Grade, TiedProducts, Dimensions, FitsQuantize, ValidThresholds, HitPoints;
    var hit := HitOf(rule, ContextOf(c, rows, asOf, regex, show)).value;
    OneRuleScore(c, rule, icp, rows, asOf, regex, show);
    OneRuleDimensions(rule, hit);
    OneRuleFits(rule, icp);
    OutcomeExists(OneRule(rule, icp), LoopOf(rule, hit));
  }

  lemma OneRuleFits(rule: Rule, icp: Number)
    requires FitsQuantize(icp)
    ensures var rs := OneRule(rule, icp); FormulaFits(rs.formula) && ClassesFit(rs.thresholds) && ValidThresholds(rs.thresholds)
  {
    assert Scaled(HUNDRED, 1.0) == HUNDRED as real && Scaled(HUNDRED, 0.0) == 0.0;
    assert OneRule(rule, icp).thresholds[0].min == Finite(0.0);
  }

  // ------------------------------------------------- accepted configurations that raise

  const UNHASHABLE: JsonText.Json := JsonText.Arr([JsonText.Str("oee"), JsonText.Arr([JsonText.Str("x")])])

  lemma HasSignalLeaf(value: JsonText.Json, facts: Facts, regex: Regex)
    ensures var condition := Condition("signal_types", "HAS_SIGNAL", value);
      && Check(condition, regex, 0).Ok? && Evaluate(condition, facts, regex, 0) == HasSignal(facts.signalTypes, ItemsOf(value))
      && SignalTypes(condition) == if AllHashable(ItemsOf(value)) then Ok(Strings(ItemsOf(value))) else Err(TypeFault)
  {
    hide EntryIn, SignalTypesUnder, HasSignal, AllHashable, Strings, ItemText, Equal, Member, Contains, HasPrefix, Shown, Between, NumberOf;
    LeafEvaluates("signal_types", "HAS_SIGNAL", value, facts, regex);
    LeafIsEntries("signal_types", "HAS_SIGNAL", value);
    assert "HAS_SIGNAL" in COMPARISONS + CONTAINS + OTHERS;
  }

  lemma UnhashableLeaf(facts: Facts, regex: Regex)
    requires "oee" in facts.signalTypes
    ensures var condition := Condition("signal_types", "HAS_SIGNAL", UNHASHABLE);
      Check(condition, regex, 0).Ok? && Evaluate(condition, facts, regex, 0) == Ok(true) && SignalTypes(condition) == Err(TypeFault)
  {
    hide Condition, Check, Evaluate, SignalTypes;
    HasSignalLeaf(UNHASHABLE, facts, regex);
    assert !Hashable(UNHASHABLE.items[1]);
  }

  predicate SeesOee(rows: seq<Signal>) {
    exists i :: 0 <= i < |rows| && rows[i].signalType == "oee"
  }

  /**
   A validated condition that holds of a company with an "oee" signal, although its signal types cannot
   be collected: any() stops at the first item, set() hashes the list that follows.
   */
  lemma UnhashableItemRaises(c: Company, rows: seq<Signal>, asOf: Time, regex: Regex, show: seq<string> -> string, p: Points)
    requires c.target == Industry && SeesOee(rows)
    ensures var condition := Condition("signal_types", "HAS_SIGNAL", UNHASHABLE);
      var rs := OneRule(SoleRule("MES", condition, p, []), Finite(0.0));
      && Valid(rs, regex) && Evaluate(condition, FactsOf(c, rows, show), regex, 0) == Ok(true)
      && Score(c, rs, rows, asOf, regex, show) == Err(TypeFault)
  {
    hide Outcome, Valid, Score, Condition, Check, Evaluate, SignalTypes, OneRule;
    var rule := SoleRule("MES", Condition("signal_types", "HAS_SIGNAL", UNHASHABLE), p, []);
    UnhashableLeaf(FactsOf(c, rows, show), regex);
    OneRuleIsValid(rule, Finite(0.0), regex);
    OneRuleScore(c, rule, Finite(0.0), rows, asOf, regex, show);
  }

  /** An infinite coefficient can pass validation, and a set that has one never scores any company. */
  lemma InfiniteCoefficientNeverScores(c: Company, rs: RuleSet, rows: seq<Signal>, asOf: Time, regex: Regex,
                                       show: seq<string> -> string, i: nat)
    requires i < |rs.formula| && rs.formula[i].coefficient.Infinite?
    ensures Score(c, rs, rows, asOf, regex, show).Err?
    ensures forall rule :: ValidRule(rule, Industry, regex) ==> Valid(OneRule(rule, Infinite(true)), regex)
  {
    hide RunRules, InOrder, Detail, Dimensions, KnownDimensions, Grade, TiedProducts, ValidRule, Valid, OneRule, ContextOf, BestOf;
    var loop := RunRules(InOrder(rs.rules), ContextOf(c, rows, asOf, regex, show));
    if loop.Ok? {
      var dims := Dimensions(loop.value.matches);
      DetailSucceedsExactly(rs.formula, dims, BestOf(rs.target, dims));
      assert WeightedTerm(rs.formula[i], dims, BestOf(rs.target, dims)).Err?;
    }
    forall rule | ValidRule(rule, Industry, regex) ensures Valid(OneRule(rule, Infinite(true)), regex) {
      OneRuleIsValid(rule, Infinite(true), regex);
    }
  }

  function OeeRule(dimension: string, p: Points, curve: seq<Bucket>): Rule {
    SoleRule(dimension, Condition("signal_types", "HAS_SIGNAL", JsonText.Str("oee")), p, curve)
  }

  lemma OeeCondition(facts: Facts, regex: Regex)
    ensures var condition := Condition("signal_types", "HAS_SIGNAL", JsonText.Str("oee"));
      && Check(condition, regex, 0).Ok? && Evaluate(condition, facts, regex, 0) == Ok("oee" in facts.signalTypes)
      && SignalTypes(condition) == Ok({"oee"})
  {
    hide Condition, Check, Evaluate, SignalTypes;
    var items := [JsonText.Str("oee")];
    HasSignalLeaf(JsonText.Str("oee"), facts, regex);
    assert items[1..] == [] && items[0].s == "oee";
    assert Strings(items) == {"oee"};
  }

  const HUGE: Number := Finite(-1000000000000000000000000000000.0)

  /** A finite coefficient of -1e30 passes validation; with it 12 points make quantize raise, and no points do not. */
  lemma HugeCoefficientRaises(c: Company, rows: seq<Signal>, asOf: Time, regex: Regex, show: seq<string> -> string)
    requires c.target == Industry
    ensures var rs := OneRule(OeeRule("ICP", 12000, []), HUGE);
      && Valid(rs, regex) && !FormulaFits(rs.formula)
      && (Score(c, rs, rows, asOf, regex, show) == Err(TypeFault) <==> SeesOee(rows))
  {
    hide Valid, Score, Condition, Check, Evaluate, SignalTypes, Latest, LoopOf, Outcome, Dimensions, KnownDimensions, Times;
    var rule := OeeRule("ICP", 12000, []);
    var context := ContextOf(c, rows, asOf, regex, show);
    OeeCondition(context.facts, regex);
    OneRuleIsValid(rule, HUGE, regex);
    OneRuleScore(c, rule, HUGE, rows, asOf, regex, show);
    assert OneRule(rule, HUGE).formula[0].coefficient == HUGE;
    HugeProducts();
    var hit := HitOf(rule, context).value;
    OneRuleDimensions(rule, hit);
    HugeOutcome(rule, LoopOf(rule, hit), HitPoints(hit));
  }

  lemma HugeOutcome(rule: Rule, s: Loop, icp: Milli)
    requires KnownDimensions(s.matches) && Dimensions(s.matches) == map d | d in DIMENSIONS :: if d == "ICP" then icp else 0
    ensures icp == 12000 ==> Outcome(OneRule(rule, HUGE), s) == Err(TypeFault)
    ensures icp == 0 ==> Outcome(OneRule(rule, HUGE), s).Ok?
  {
    hide Dimensions, KnownDimensions, TiedProducts, Times, Detail, Classify, ValidThresholds;
    var rs, dims := OneRule(rule, HUGE), Dimensions(s.matches);
    HugeProducts();
    assert rs.formula[..1][..0] == rs.formula[..0] == [];
    if icp == 12000 {
      NoTerms(dims, 0);
      DetailNext(rs.formula, 0, dims, 0);
      DetailFailsEarly(rs.formula, 1, dims, 0);
    } else if icp == 0 {
      DetailSucceedsExactly(rs.formula, dims, 0);
      OneRuleFits(rule, Finite(0.0));
      ClassificationIsTotal(rs.thresholds, Priority(Detail(rs.formula, dims, 0).value));
    }
  }

  lemma HugeProducts()
    ensures FitsQuantize(Finite(0.0)) && Times(12000, 1.0) == 12000 && Times(0, HUGE.value) == 0 && Times(0, 1.0) == 0 && Times(0, 0.0) == 0
    ensures Quantized(12000, HUGE.value) == None && Quantized(HUNDRED, HUGE.value) == None
  {
    assert Scaled(12000, 1.0) == 12000.0 && Scaled(0, HUGE.value) == 0.0 && Scaled(0, 1.0) == 0.0 && Scaled(0, 0.0) == 0.0;
    assert Scaled(HUNDRED, 0.0) == 0.0;
    assert Scaled(12000, HUGE.value) == -12000000000000000000000000000000000.0;
    assert Scaled(HUNDRED, HUGE.value) == -100000000000000000000000000000000000.0;
  }

  // ------------------------------------------------------------------------------ ageing

  predicate RisesBetween(curve: seq<Bucket>, a: nat, b: nat) {
    Lookup(curve, a).Ok? && Lookup(curve, b).Ok? && Lookup(curve, a).value < Lookup(curve, b).value
  }

  // The last age of a bucket that is not the last one.
  function LastAge(curve: seq<Bucket>, i: nat): nat
    requires ValidCurve(curve) && i + 1 < |curve|
  {
    curve[i].maxDays.value
  }

  // An age inside bucket i.
  function AgeIn(curve: seq<Bucket>, i: nat): nat
    requires ValidCurve(curve) && i < |curve|
  {
    if i == 0 then 0 else LastAge(curve, i - 1) + 1
  }

  lemma BucketAt(curve: seq<Bucket>, i: nat)
    requires ValidCurve(curve) && i < |curve|
    ensures Lookup(curve, AgeIn(curve, i)) == Ok(curve[i].multiplier.value)
  {
    hide Lookup;
    LookupIsCovering(curve, AgeIn(curve, i));
    assert Covers(curve, i, AgeIn(curve, i));
  }

  // Later buckets start later.
  lemma AgesGrow(curve: seq<Bucket>, i: nat, j: nat)
    requires ValidCurve(curve) && i < j < |curve|
    ensures AgeIn(curve, i) < AgeIn(curve, j)
  {
  }

  /** An accepted curve gives older evidence no larger multiplier exactly when its multipliers do not rise. */
  lemma CurveFallsExactly(curve: seq<Bucket>)
    requires ValidCurve(curve)
    ensures (forall a: nat, b: nat :: a <= b ==> !RisesBetween(curve, a, b)) <==> NonIncreasing(curve)
  {
    hide Lookup;
    if NonIncreasing(curve) {
      forall a: nat, b: nat | a <= b ensures !RisesBetween(curve, a, b) {
        LookupFalls(curve, a, b);
      }
    } else {
      var i, j :| 0 <= i < j < |curve| && curve[i].multiplier.value < curve[j].multiplier.value;
      BucketAt(curve, i);
      BucketAt(curve, j);
      AgesGrow(curve, i, j);
      assert RisesBetween(curve, AgeIn(curve, i), AgeIn(curve, j));
    }
  }

  // Points after a bucket's decay, as they count towards a dimension.
  function DecayedPoints(p: Points, bucket: Bucket): Milli {
    match bucket.multiplier case Finite(m) => Clamp(Times(p, m)) case _ => 0
  }

  ghost predicate PointsFall(p: Points, curve: seq<Bucket>) {
    forall i, j :: 0 <= i < j < |curve| ==> DecayedPoints(p, curve[i]) >= DecayedPoints(p, curve[j])
  }

  // The MES dimension of a score.
  function MesOf(r: Result<Snapshot, Fault>): Milli {
    match r case Ok(s) => At(s.dimensions, "MES") case Err(_) => 0
  }

  // One "oee" signal, never expiring, and a set whose only rule decays by the curve.
  function MesAt(c: Company, p: Points, curve: seq<Bucket>, observedAt: Time, asOf: Time, regex: Regex, show: seq<string> -> string)
    : Result<Snapshot, Fault>
  {
    Score(c, OneRule(OeeRule("MES", p, curve), Finite(0.0)), [Signal(1, "oee", observedAt, None, true)], asOf, regex, show)
  }

  lemma MesIsDecayed(c: Company, p: Points, curve: seq<Bucket>, observedAt: Time, asOf: Time, regex: Regex, show: seq<string> -> string)
    requires c.target == Industry && ValidCurve(curve)
    ensures var s := MesAt(c, p, curve, observedAt, asOf, regex, show);
      var m := Lookup(curve, AgeDays(observedAt, asOf));
      && m.Ok? && s.Ok? && MesOf(s) == Clamp(Times(p, m.value))
  {
    hide Score, Condition, Evaluate, Check, SignalTypes, Lookup, Times, ValidCurve, OneRule, AgeDays, At;
    var rows := [Signal(1, "oee", observedAt, None, true)];
    var rule, context := OeeRule("MES", p, curve), ContextOf(c, rows, asOf, regex, show);
    OeeCondition(context.facts, regex);
    assert rows[0].signalType == "oee";
    assert rows[1..] == [];
    assert Latest(rows, {"oee"}) == Some(observedAt);
    LookupIsCovering(curve, AgeDays(observedAt, asOf));
    SmallFits(p, Lookup(curve, AgeDays(observedAt, asOf)).value);
    assert HitOf(rule, context).Ok?;
    OneRuleFits(rule, Finite(0.0)) by { HugeProducts(); }
    OneRuleDimension(c, rule, Finite(0.0), rows, asOf, regex, show) by { HugeProducts(); }
  }

  // The dimension at a later instant is no larger.
  ghost predicate NoGain(c: Company, p: Points, curve: seq<Bucket>, observedAt: Time, t: Time, u: Time, regex: Regex,
                         show: seq<string> -> string)
  {
    var young, aged := MesAt(c, p, curve, observedAt, t, regex, show), MesAt(c, p, curve, observedAt, u, regex, show);
    young.Ok? && aged.Ok? && MesOf(aged) <= MesOf(young)
  }

  lemma NoGainIsDecay(c: Company, p: Points, curve: seq<Bucket>, observedAt: Time, t: Time, u: Time, regex: Regex,
                      show: seq<string> -> string, i: nat, j: nat)
    requires c.target == Industry && ValidCurve(curve)
    requires Covers(curve, i, AgeDays(observedAt, t)) && Covers(curve, j, AgeDays(observedAt, u))
    ensures NoGain(c, p, curve, observedAt, t, u, regex, show) <==> DecayedPoints(p, curve[j]) <= DecayedPoints(p, curve[i])
  {
    hide MesAt, MesOf, Lookup, Times, AgeDays;
    MesIsDecayed(c, p, curve, observedAt, t, regex, show);
    MesIsDecayed(c, p, curve, observedAt, u, regex, show);
    LookupIsCovering(curve, AgeDays(observedAt, t));
    LookupIsCovering(curve, AgeDays(observedAt, u));
  }

  lemma CoversGrow(curve: seq<Bucket>, a: nat, b: nat, i: nat, j: nat)
    requires ValidCurve(curve) && a <= b && Covers(curve, i, a) && Covers(curve, j, b)
    ensures i <= j
  {
  }

  lemma AgeAfter(observedAt: Time, days: nat)
    ensures AgeDays(observedAt, observedAt + days * DAY) == days
  {
  }

  /**
   Validation does not ask that curves fall.  For a set whose one rule decays by an accepted curve, no
   later instant ever gives more points exactly when the rounded points of the buckets do not rise.
   */
  lemma ScoresAgeExactly(c: Company, p: Points, curve: seq<Bucket>, observedAt: Time, regex: Regex, show: seq<string> -> string)
    requires c.target == Industry && ValidCurve(curve)
    ensures Valid(OneRule(OeeRule("MES", p, curve), Finite(0.0)), regex)
    ensures (forall t: Time, u: Time :: observedAt <= t <= u ==> NoGain(c, p, curve, observedAt, t, u, regex, show))
       <==> PointsFall(p, curve)
  {
    hide NoGain, DecayedPoints, Valid, ValidCurve, Check, AgeDays, Condition, Covers, MesOf;
    OneRuleIsValid(OeeRule("MES", p, curve), Finite(0.0), regex) by {
      OeeCondition(Facts(map[], [], {}, ""), regex);
    }
    if PointsFall(p, curve) {
      forall t: Time, u: Time | observedAt <= t <= u ensures NoGain(c, p, curve, observedAt, t, u, regex, show) {
        FallingPointsGainNothing(c, p, curve, observedAt, t, u, regex, show);
      }
    }
    if forall t: Time, u: Time :: observedAt <= t <= u ==> NoGain(c, p, curve, observedAt, t, u, regex, show) {
      forall i, j | 0 <= i < j < |curve| ensures DecayedPoints(p, curve[i]) >= DecayedPoints(p, curve[j]) {
        var t, u := observedAt + AgeIn(curve, i) * DAY, observedAt + AgeIn(curve, j) * DAY;
        AgesGrow(curve, i, j);
        assert NoGain(c, p, curve, observedAt, t, u, regex, show);
        AgeAfter(observedAt, AgeIn(curve, i));
        AgeAfter(observedAt, AgeIn(curve, j));
        AgeIsCovered(curve, i);
        AgeIsCovered(curve, j);
        NoGainIsDecay(c, p, curve, observedAt, t, u, regex, show, i, j);
      }
    }
  }

  lemma AgeIsCovered(curve: seq<Bucket>, i: nat)
    requires ValidCurve(curve) && i < |curve|
    ensures Covers(curve, i, AgeIn(curve, i))
  {
  }

  lemma FallingPointsGainNothing(c: Company, p: Points, curve: seq<Bucket>, observedAt: Time, t: Time, u: Time, regex: Regex,
                                 show: seq<string> -> string)
    requires c.target == Industry && ValidCurve(curve) && PointsFall(p, curve) && t <= u
    ensures NoGain(c, p, curve, observedAt, t, u, regex, show)
  {
    hide NoGain, DecayedPoints, Lookup;
    var a, b := AgeDays(observedAt, t), AgeDays(observedAt, u);
    LookupIsCovering(curve, a);
    LookupIsCovering(curve, b);
    var i: nat :| Covers(curve, i, a);
    var j: nat :| Covers(curve, j, b);
    CoversGrow(curve, a, b, i, j);
    NoGainIsDecay(c, p, curve, observedAt, t, u, regex, show, i, j);
  }

  /** The rounded points of a curve that does not rise do not rise either, for nonnegative points. */
  lemma FallingCurvesFall(p: Points, curve: seq<Bucket>)
    requires ValidCurve(curve) && p >= 0 && NonIncreasing(curve)
    ensures PointsFall(p, curve)
  {
    hide Times;
    forall i, j | 0 <= i < j < |curve| ensures DecayedPoints(p, curve[i]) >= DecayedPoints(p, curve[j]) {
      TimesMonotone(p, p, curve[j].multiplier.value, curve[i].multiplier.value);
      ClampMonotone(Times(p, curve[j].multiplier.value), Times(p, curve[i].multiplier.value));
    }
  }

  // ---------------------------------------------------------- the text of signal types

  // What the hit of a rule decides about a score.
  lemma HitsDecide(c: Company, rule: Rule, icp: Number, rows: seq<Signal>, again: seq<Signal>, asOf: Time, regex: Regex,
                   show: seq<string> -> string)
    requires c.target == Industry && rule.active && ValidRule(rule, Industry, regex) && NotPositive(icp) && FitsQuantize(icp)
    requires multiset(rows) == multiset(again)
    ensures var a, b := HitOf(rule, ContextOf(c, rows, asOf, regex, show)), HitOf(rule, ContextOf(c, again, asOf, regex, show));
      Score(c, OneRule(rule, icp), rows, asOf, regex, show) == Score(c, OneRule(rule, icp), again, asOf, regex, show) <==> a == b
  {
    hide Score, HitOf, ContextOf, Outcome, LoopOf, Check, ValidCurve, FitsQuantize;
    var a, b := HitOf(rule, ContextOf(c, rows, asOf, regex, show)), HitOf(rule, ContextOf(c, again, asOf, regex, show));
    OneRuleScore(c, rule, icp, rows, asOf, regex, show);
    OneRuleScore(c, rule, icp, again, asOf, regex, show);
    if a.Ok? {
      OneRuleSnapshot(rule, icp, a.value);
    }
    if b.Ok? {
      OneRuleSnapshot(rule, icp, b.value);
    }
    if a.Ok? && b.Ok? && a != b {
      if a.value.Some? && b.value.Some? {
        HitIsTimes(rule, ContextOf(c, rows, asOf, regex, show));
        HitIsTimes(rule, ContextOf(c, again, asOf, regex, show));
      }
      HitsShow(rule, a.value, b.value);
    }
  }

  lemma OneRuleSnapshot(rule: Rule, icp: Number, hit: Option<Hit>)
    requires rule.dimension in DIMENSIONS && NotPositive(icp) && FitsQuantize(icp)
    ensures var s := Outcome(OneRule(rule, icp), LoopOf(rule, hit)); s.Ok? && s.value.contributions == LoopOf(rule, hit).matches
  {
    hide Detail, Grade, TiedProducts, Dimensions, FitsQuantize, ValidThresholds, AddMatch, BestOf, Priority;
    OneRuleKnown(rule, hit);
    OneRuleFits(rule, icp);
    OutcomeExists(OneRule(rule, icp), LoopOf(rule, hit));
  }

  lemma OneRuleKnown(rule: Rule, hit: Option<Hit>)
    requires rule.dimension in DIMENSIONS
    ensures KnownDimensions(LoopOf(rule, hit).matches)
  {
  }

  // A match shows in the contributions, with its multiplier, points and instant.
  lemma HitsShow(rule: Rule, a: Option<Hit>, b: Option<Hit>)
    requires a != b && (a.Some? && b.Some? ==> a.value.multiplier != b.value.multiplier || a.value.observedAt != b.value.observedAt)
    ensures LoopOf(rule, a).matches != LoopOf(rule, b).matches
  {
    hide UnderCap;
    if a.Some? && b.Some? {
      assert LoopOf(rule, a).matches[0] != LoopOf(rule, b).matches[0];
    }
  }

  /**
   The text of the set of signal types depends on the order its elements were added in, that is on the
   row order.  For any one validated rule two row orders give the same score, or the same error, exactly
   when its condition evaluates alike on the two texts.
   */
  lemma RowOrderMattersExactly(c: Company, rule: Rule, icp: Number, rows: seq<Signal>, again: seq<Signal>, asOf: Time, regex: Regex,
                               show: seq<string> -> string)
    requires c.target == Industry && rule.active && ValidRule(rule, Industry, regex) && NotPositive(icp) && FitsQuantize(icp)
    requires multiset(rows) == multiset(again)
    ensures Valid(OneRule(rule, icp), regex)
    ensures Score(c, OneRule(rule, icp), rows, asOf, regex, show) == Score(c, OneRule(rule, icp), again, asOf, regex, show)
       <==> Evaluate(rule.condition, FactsOf(c, rows, show), regex, 0) == Evaluate(rule.condition, FactsOf(c, again, show), regex, 0)
  {
    hide Score, Valid, OneRule, Evaluate, Check, ValidCurve, FitsQuantize, HitOf, TypesOf, Latest;
    OneRuleIsValid(rule, icp, regex);
    PermutedView(c, rows, again, asOf, regex, show);
    HitsDecide(c, rule, icp, rows, again, asOf, regex, show);
    HitsAgreeExactly(rule, ContextOf(c, rows, asOf, regex, show), ContextOf(c, again, asOf, regex, show));
  }

  lemma HitsAgreeExactly(rule: Rule, c: Context, d: Context)
    requires ValidRule(rule, Industry, c.regex) && SameView(c, d)
    ensures HitOf(rule, c) == HitOf(rule, d)
       <==> Evaluate(rule.condition, c.facts, c.regex, 0) == Evaluate(rule.condition, d.facts, c.regex, 0)
  {
    hide Evaluate, Check, SignalTypes, SignalItemsHashable, Latest, Decay, ValidCurve;
    SignalTypesExactly(rule.condition, c.regex, 0);
    if Evaluate(rule.condition, d.facts, c.regex, 0).Ok? {
      ErrorsIgnoreShown(rule.condition, c.facts, d.facts, c.regex, 0);
    }
    if Evaluate(rule.condition, c.facts, c.regex, 0).Ok? {
      ErrorsIgnoreShown(rule.condition, d.facts, c.facts, c.regex, 0);
    }
    if SignalTypes(rule.condition).Ok? {
      DecaySucceeds(rule, Latest(c.signals, SignalTypes(rule.condition).value), c.asOf);
    }
  }

  lemma DecaySucceeds(rule: Rule, observedAt: Option<Time>, asOf: Time)
    requires rule.decays ==> ValidCurve(rule.curve)
    ensures Decay(rule, observedAt, asOf).Ok? && Decay(rule, observedAt, asOf).value.Some?
  {
    hide Multiplier, Quantized, ValidCurve;
    MultiplierIsFine(rule, observedAt, asOf);
    SmallFits(rule.points, Multiplier(rule, observedAt, asOf).value);
  }

  /**
   Two visible signals observed at the same instant may come back in either order, and where only one
   of the two texts holds what the rule looks for the same stored data have two different scores.
   */
  lemma TiesDecide(c: Company, needle: string, p: Points, x: Signal, y: Signal, asOf: Time, regex: Regex, show: seq<string> -> string)
    requires c.target == Industry && 0 < p <= HUNDRED && QueryRows([x, y], [x, y], asOf) && x.observedAt == y.observedAt
    requires IsPart(Lower(needle), Lower(show([x.signalType, y.signalType])))
    requires !IsPart(Lower(needle), Lower(show([y.signalType, x.signalType])))
    ensures var rs := OneRule(SoleRule("MES", Condition("signal_types", "CONTAINS_KEYWORD", JsonText.Str(needle)), p, []), Finite(0.0));
      && QueryRows([y, x], [x, y], asOf) && Valid(rs, regex)
      && MesOf(Score(c, rs, [x, y], asOf, regex, show)) == p && MesOf(Score(c, rs, [y, x], asOf, regex, show)) == 0
  {
    hide Score, Valid, SoleRule, OneRule, Lower, IsPart, Condition, MesOf;
    assert multiset([x, y]) == multiset([y, x]);
    assert TypesInOrder([x, y]) == [x.signalType, y.signalType] && TypesInOrder([y, x]) == [y.signalType, x.signalType];
    assert [x, y][0].signalType in TypesOf([x, y]) && [y, x][0].signalType in TypesOf([y, x]);
    ShownRule(c, needle, p, [x, y], asOf, regex, show);
    ShownRule(c, needle, p, [y, x], asOf, regex, show);
  }

  // What the rule of the lemma above gives for one row order.
  lemma ShownRule(c: Company, needle: string, p: Points, rows: seq<Signal>, asOf: Time, regex: Regex, show: seq<string> -> string)
    requires c.target == Industry && 0 < p <= HUNDRED && TypesOf(rows) != {}
    ensures var rs := OneRule(SoleRule("MES", Condition("signal_types", "CONTAINS_KEYWORD", JsonText.Str(needle)), p, []), Finite(0.0));
      var s := Score(c, rs, rows, asOf, regex, show);
      && Valid(rs, regex) && s.Ok?
      && MesOf(s) == if IsPart(Lower(needle), Lower(show(TypesInOrder(rows)))) then p else 0
  {
    hide Score, Valid, OneRule, TypesOf, Lower, IsPart, Condition, Check, Evaluate, SignalTypes, Latest, Times;
    var rule := SoleRule("MES", Condition("signal_types", "CONTAINS_KEYWORD", JsonText.Str(needle)), p, []);
    var context := ContextOf(c, rows, asOf, regex, show);
    ContainsLeaf(needle, context.facts, regex);
    OneRuleIsValid(rule, Finite(0.0), regex);
    WholePoints(p);
    OneRuleDimension(c, rule, Finite(0.0), rows, asOf, regex, show) by { HugeProducts(); }
  }

  lemma WholePoints(p: Points)
    ensures Times(p, 1.0) == p
  {
    assert Scaled(p, 1.0) == p as real;
  }

  lemma ContainsLeaf(needle: string, facts: Facts, regex: Regex)
    requires facts.signalTypes != {}
    ensures var condition := Condition("signal_types", "CONTAINS_KEYWORD", JsonText.Str(needle));
      && Check(condition, regex, 0).Ok? && SignalTypes(condition) == Ok({})
      && Evaluate(condition, facts, regex, 0) == Ok(IsPart(Lower(needle), Lower(facts.shown)))
  {
    hide EntryIn, HasSignal, Equal, Member, HasPrefix, Between, NumberOf, Lower, IsPart;
    LeafEvaluates("signal_types", "CONTAINS_KEYWORD", JsonText.Str(needle), facts, regex);
    LeafIsEntries("signal_types", "CONTAINS_KEYWORD", JsonText.Str(needle));
    assert "CONTAINS_KEYWORD" in COMPARISONS + CONTAINS + OTHERS;
    assert ItemsOf(JsonText.Str(needle))[0] == JsonText.Str(needle);
  }
}
