/** `validate_rule_set`, and what an accepted rule set guarantees the engine. */
module RuleSetValidation {
  import opened Basics
  import opened Numbers
  import opened Conditions
  import ConditionMeaning
  import opened Rounding
  import opened ScoringEngine
  import opened ScoreMeaning

  function RuleDimensions(target: Target): set<string> {
    if target == Industry then {"ICP", "MES", "CMMS", "PULSE", "INTENT"} else {"PARTNER_FIT", "CHANNEL", "ACTIVITY", "CONFLICT"}
  }

  function FormulaDimensions(target: Target): set<string> {
    if target == Industry then {"ICP", "BEST_PRODUCT", "INTENT"} else {"PARTNER_FIT", "CHANNEL", "ACTIVITY", "CONFLICT"}
  }

  function Names(formula: seq<Term>): set<string> {
    set i | 0 <= i < |formula| :: formula[i].name
  }

  function PositivePart(n: Number): real {
    if n.Finite? && n.value > 0.0 then n.value else 0.0
  }

  function PositiveSum(formula: seq<Term>): real {
    if formula == [] then 0.0
    else PositiveSum(formula[..|formula| - 1]) + PositivePart(formula[|formula| - 1].coefficient)
  }

  // A negative coefficient may be infinite: only the positive ones are added up.
  predicate ValidFormula(rs: RuleSet) {
    && (forall i :: 0 <= i < |rs.formula| ==> rs.formula[i].coefficient.Finite? || rs.formula[i].coefficient == Infinite(true))
    && Names(rs.formula) == FormulaDimensions(rs.target) && PositiveSum(rs.formula) == 1.0
  }

  predicate DistinctMinimums(ts: seq<Threshold>) {
    forall i, j :: 0 <= i < j < |ts| ==> ts[i].min != ts[j].min
  }

  predicate DistinctClasses(ts: seq<Threshold>) {
    forall i, j :: 0 <= i < j < |ts| ==> ts[i].classification != ts[j].classification
  }

  predicate InRange(n: Number, low: real, high: real) {
    n.Finite? && low <= n.value <= high
  }

  // Each minimum lies in 0..100 and names a class; one of them is zero.
  predicate ValidThresholds(ts: seq<Threshold>) {
    && DistinctMinimums(ts) && DistinctClasses(ts)
    && (forall i :: 0 <= i < |ts| ==> InRange(ts[i].min, 0.0, 100.0) && ts[i].classification != "")
    && exists i :: 0 <= i < |ts| && ts[i].min == Finite(0.0)
  }

  predicate ValidTieOrder(rs: RuleSet) {
    rs.target == Industry ==> (set i | 0 <= i < |rs.tieOrder| :: rs.tieOrder[i]) == {"MES", "CMMS", "PULSE"}
  }

  // Increasing nonnegative limits, the last bucket open, multipliers in 0..1.
  predicate ValidCurve(curve: seq<Bucket>) {
    && curve != [] && curve[|curve| - 1].maxDays.None?
    && (forall i :: 0 <= i < |curve| - 1 ==> curve[i].maxDays.Some? && curve[i].maxDays.value >= 0)
    && (forall i, j :: 0 <= i < j < |curve| - 1 ==> curve[i].maxDays.value < curve[j].maxDays.value)
    && (forall i :: 0 <= i < |curve| ==> InRange(curve[i].multiplier, 0.0, 1.0))
  }

  predicate ValidRule(rule: Rule, target: Target, regex: Regex) {
    && Check(rule.condition, regex, 0).Ok? && rule.dimension in RuleDimensions(target)
    && (rule.decays ==> ValidCurve(rule.curve))
  }

  predicate ValidRules(rules: seq<Rule>, target: Target, regex: Regex) {
    forall i :: 0 <= i < |rules| ==> ValidRule(rules[i], target, regex)
  }

  /** What `validate_rule_set` accepts. */
  predicate Valid(rs: RuleSet, regex: Regex) {
    ValidFormula(rs) && ValidThresholds(rs.thresholds) && ValidTieOrder(rs) && ValidRules(rs.rules, rs.target, regex)
  }

  // -------------------------------------------------- what is accepted, in full

  // The positive coefficients added up.
  function PositiveTotal(formula: seq<Term>): real {
    if formula == [] then 0.0
    else (if formula[0].coefficient.Finite? && formula[0].coefficient.value > 0.0 then formula[0].coefficient.value else 0.0)
         + PositiveTotal(formula[1..])
  }

  ghost predicate HasTerm(formula: seq<Term>, name: string) {
    exists i :: 0 <= i < |formula| && formula[i].name == name
  }

  // Coefficients for exactly the dimensions of the target, none of them NaN or +Infinity, the positive ones adding up to 1.
  ghost predicate FormulaIsRight(rs: RuleSet) {
    && (rs.target == Industry ==> forall name :: HasTerm(rs.formula, name) <==> name in {"ICP", "BEST_PRODUCT", "INTENT"})
    && (rs.target == Partner ==> forall name :: HasTerm(rs.formula, name) <==> name in {"PARTNER_FIT", "CHANNEL", "ACTIVITY", "CONFLICT"})
    && (forall t :: t in rs.formula ==> t.coefficient.Finite? || t.coefficient == Infinite(true))
    && PositiveTotal(rs.formula) == 1.0
  }

  // Minimums in 0..100 and classes, each once, and one minimum of zero.
  ghost predicate ThresholdsAreRight(ts: seq<Threshold>) {
    && (forall t :: t in ts ==> t.min.Finite? && 0.0 <= t.min.value <= 100.0 && t.classification != "")
    && (forall i, j :: 0 <= i < j < |ts| ==> ts[i].min != ts[j].min && ts[i].classification != ts[j].classification)
    && exists t :: t in ts && t.min == Finite(0.0)
  }

  // Limits of whole days that grow, an open last bucket, and multipliers in 0..1.
  ghost predicate CurveIsRight(curve: seq<Bucket>) {
    && |curve| > 0
    && (forall i :: 0 <= i < |curve| ==> (curve[i].maxDays == None <==> i == |curve| - 1))
    && (forall i :: 0 <= i < |curve| ==> curve[i].multiplier.Finite? && 0.0 <= curve[i].multiplier.value <= 1.0)
    && (forall i :: 0 <= i < |curve| && curve[i].maxDays.Some? ==> curve[i].maxDays.value >= 0)
    && (forall i, j :: 0 <= i < j < |curve| && curve[j].maxDays.Some? ==> curve[i].maxDays.Some? && curve[i].maxDays.value < curve[j].maxDays.value)
  }

  ghost predicate RuleIsRight(rule: Rule, target: Target, regex: Regex) {
    && ConditionMeaning.IsCondition(rule.condition, regex, 0)
    && rule.dimension in (if target == Industry then {"ICP", "MES", "CMMS", "PULSE", "INTENT"} else {"PARTNER_FIT", "CHANNEL", "ACTIVITY", "CONFLICT"})
    && (rule.decays ==> CurveIsRight(rule.curve))
  }

  ghost predicate SetIsRight(rs: RuleSet, regex: Regex) {
    && FormulaIsRight(rs) && ThresholdsAreRight(rs.thresholds)
    && (rs.target == Industry ==> forall p :: p in rs.tieOrder <==> p in {"MES", "CMMS", "PULSE"})
    && forall rule :: rule in rs.rules ==> RuleIsRight(rule, rs.target, regex)
  }

  lemma {:induction false} TotalLast(formula: seq<Term>)
    requires formula != []
    ensures PositiveTotal(formula) == PositiveTotal(formula[..|formula| - 1]) + PositivePart(formula[|formula| - 1].coefficient)
  {
    if |formula| == 1 {
      assert formula[..0] == [] && formula[1..] == [];
    } else {
      TotalLast(formula[1..]);
      assert formula[1..][..|formula| - 2] == formula[..|formula| - 1][1..];
    }
  }

  lemma {:induction false} SumIsTotal(formula: seq<Term>)
    ensures PositiveSum(formula) == PositiveTotal(formula)
  {
    if formula != [] {
      SumIsTotal(formula[..|formula| - 1]);
      TotalLast(formula);
    }
  }

  lemma FormulaIsRightExactly(rs: RuleSet)
    ensures ValidFormula(rs) <==> FormulaIsRight(rs)
  {
    hide PositiveSum, PositiveTotal;
    SumIsTotal(rs.formula);
    var names := FormulaDimensions(rs.target);
    assert forall name :: name in Names(rs.formula) <==> HasTerm(rs.formula, name);
    if FormulaIsRight(rs) {
      assert Names(rs.formula) == names;
      forall i | 0 <= i < |rs.formula| ensures rs.formula[i].coefficient.Finite? || rs.formula[i].coefficient == Infinite(true) {
        assert rs.formula[i] in rs.formula;
      }
    }
  }

  lemma ThresholdsAreRightExactly(ts: seq<Threshold>)
    ensures ValidThresholds(ts) <==> ThresholdsAreRight(ts)
  {
    if ThresholdsAreRight(ts) {
      forall i | 0 <= i < |ts| ensures InRange(ts[i].min, 0.0, 100.0) && ts[i].classification != "" {
        assert ts[i] in ts;
      }
      var t :| t in ts && t.min == Finite(0.0);
      var i :| 0 <= i < |ts| && ts[i] == t;
    }
    if ValidThresholds(ts) {
      var i :| 0 <= i < |ts| && ts[i].min == Finite(0.0);
      assert ts[i] in ts;
    }
  }

  lemma CurveIsRightExactly(curve: seq<Bucket>)
    ensures ValidCurve(curve) <==> CurveIsRight(curve)
  {
  }

  /** What validation accepts, said of the texts and numbers alone. */
  lemma ValidExactly(rs: RuleSet, regex: Regex)
    ensures Valid(rs, regex) <==> SetIsRight(rs, regex)
  {
    hide Check, ConditionMeaning.IsCondition, ValidFormula, FormulaIsRight, ValidThresholds, ThresholdsAreRight, ValidCurve, CurveIsRight;
    FormulaIsRightExactly(rs);
    ThresholdsAreRightExactly(rs.thresholds);
    TieOrderExactly(rs);
    forall rule: Rule ensures ValidRule(rule, rs.target, regex) <==> RuleIsRight(rule, rs.target, regex) {
      ConditionMeaning.AcceptsExactly(rule.condition, regex, 0);
      CurveIsRightExactly(rule.curve);
    }
    RulesOneByOne(rs, regex);
  }

  lemma TieOrderExactly(rs: RuleSet)
    ensures ValidTieOrder(rs) <==> (rs.target == Industry ==> forall p :: p in rs.tieOrder <==> p in {"MES", "CMMS", "PULSE"})
  {
    var named := set i | 0 <= i < |rs.tieOrder| :: rs.tieOrder[i];
    assert forall p :: p in named <==> p in rs.tieOrder;
    if forall p :: p in rs.tieOrder <==> p in {"MES", "CMMS", "PULSE"} {
      assert named == {"MES", "CMMS", "PULSE"};
    }
  }

  lemma RulesOneByOne(rs: RuleSet, regex: Regex)
    ensures ValidRules(rs.rules, rs.target, regex) <==> forall rule :: rule in rs.rules ==> ValidRule(rule, rs.target, regex)
  {
    hide ValidRule;
    assert forall i :: 0 <= i < |rs.rules| ==> rs.rules[i] in rs.rules;
  }

  datatype Problem =
    | FormulaKeys | FormulaSum | FormulaNotNumeric
    | ThresholdZero | ThresholdClasses | ThresholdRange | ThresholdFormat
    | TieOrder | RuleCondition(key: string) | RuleDimension(key: string) | RuleCurve(key: string)

  // ---------------------------------------------------------------------- the methods

  method CheckFormula(rs: RuleSet) returns (problems: seq<Problem>)
    ensures problems == [] <==> ValidFormula(rs)
  {
    problems := [];
    var names: set<string> := {};
    for i := 0 to |rs.formula|
      invariant names == Names(rs.formula[..i])
      invariant forall j :: 0 <= j < i ==> !rs.formula[j].coefficient.Malformed?
    {
      if rs.formula[i].coefficient.Malformed? {
        return [FormulaNotNumeric];
      }
      NamesNext(rs.formula, i);
      names := names + {rs.formula[i].name};
    }
    assert rs.formula[..|rs.formula|] == rs.formula;
    if names != FormulaDimensions(rs.target) {
      problems := problems + [FormulaKeys];
    }
    ghost var keys := problems == [];
    var sum, unbounded := 0.0, false;
    for i := 0 to |rs.formula|
      invariant sum == PositiveSum(rs.formula[..i]) && (problems == [] <==> keys)
      invariant forall j :: 0 <= j < i ==> !rs.formula[j].coefficient.NotANumber?
      invariant unbounded <==> exists j :: 0 <= j < i && rs.formula[j].coefficient == Infinite(false)
    {
      var coefficient := rs.formula[i].coefficient;
      if coefficient.NotANumber? {
        return problems + [FormulaNotNumeric];
      }
      assert rs.formula[..i + 1][..i] == rs.formula[..i];
      unbounded := unbounded || coefficient == Infinite(false);
      sum := sum + PositivePart(coefficient);
    }
    if unbounded || sum != 1.0 {
      problems := problems + [FormulaSum];
    }
  }

  lemma NamesNext(formula: seq<Term>, i: nat)
    requires i < |formula|
    ensures Names(formula[..i + 1]) == Names(formula[..i]) + {formula[i].name}
  {
    var xs := formula[..i + 1];
    forall n ensures n in Names(xs) <==> n in Names(formula[..i]) || n == formula[i].name {
      if n in Names(formula[..i]) {
        var j :| 0 <= j < i && formula[..i][j].name == n;
        assert xs[j].name == n;
      }
      assert xs[i] == formula[i];
    }
  }

  method CheckThresholds(ts: seq<Threshold>) returns (problems: seq<Problem>)
    ensures problems == [] <==> ValidThresholds(ts)
  {
    if exists i :: 0 <= i < |ts| && ts[i].min.Malformed? {
      return [ThresholdFormat];
    }
    if exists i :: 0 <= i < |ts| && ts[i].min.NotANumber? {
      // min() compares it with another minimum, or the range check does
      return if |ts| == 1 then [ThresholdZero, ThresholdFormat] else [ThresholdFormat];
    }
    problems := [];
    var least := if ts == [] then NotANumber else ts[0].min;
    for i := 0 to |ts|
      invariant ts != [] ==> least.Comparable() && exists j :: 0 <= j < |ts| && ts[j].min == least
      invariant forall j :: 0 <= j < i ==> AtMost(least, ts[j].min)
    {
      if !AtMost(least, ts[i].min) {
        least := ts[i].min;
      }
    }
    if ts == [] || least != Finite(0.0) || !DistinctMinimums(ts) {
      problems := problems + [ThresholdZero];
    }
    if !DistinctClasses(ts) {
      problems := problems + [ThresholdClasses];
    }
    if exists i :: 0 <= i < |ts| && (!AtMost(Finite(0.0), ts[i].min) || !AtMost(ts[i].min, Finite(100.0)) || ts[i].classification == "") {
      problems := problems + [ThresholdRange];
    }
  }

  method CheckRule(rule: Rule, target: Target, regex: Regex) returns (r: Result<seq<Problem>, Fault>)
    ensures r == Ok([]) <==> ValidRule(rule, target, regex)
    ensures r.Err? <==> Check(rule.condition, regex, 0) == Err(TypeFault)
  {
    hide Check;
    var problems := [];
    match Check(rule.condition, regex, 0) {
      case Err(TypeFault) => return Err(TypeFault);
      case Err(_) => problems := problems + [RuleCondition(rule.key)];
      case Ok(_) =>
    }
    if rule.dimension !in RuleDimensions(target) {
      problems := problems + [RuleDimension(rule.key)];
    }
    if rule.decays && !ValidCurve(rule.curve) {
      problems := problems + [RuleCurve(rule.key)];
    }
    return Ok(problems);
  }

  /** `validate_rule_set`: no problem is reported exactly for the valid rule sets. */
  method ValidateRuleSet(rs: RuleSet, regex: Regex) returns (r: Result<seq<Problem>, Fault>)
    ensures r == Ok([]) <==> Valid(rs, regex)
    ensures r == Ok([]) <==> SetIsRight(rs, regex)
    ensures r.Err? ==> exists i :: 0 <= i < |rs.rules| && Check(rs.rules[i].condition, regex, 0) == Err(TypeFault)
  {
    hide Check, ValidRule, ValidFormula, ValidThresholds, SetIsRight;
    ValidExactly(rs, regex);
    var problems := CheckFormula(rs);
    var more := CheckThresholds(rs.thresholds);
    problems := problems + more;
    if rs.target == Industry && (set i | 0 <= i < |rs.tieOrder| :: rs.tieOrder[i]) != {"MES", "CMMS", "PULSE"} {
      problems := problems + [TieOrder];
    }
    ghost var before := problems == [];
    for i := 0 to |rs.rules|
      invariant problems == [] <==> before && ValidRules(rs.rules[..i], rs.target, regex)
    {
      var found := CheckRule(rs.rules[i], rs.target, regex);
      assert rs.rules[..i + 1] == rs.rules[..i] + [rs.rules[i]];
      if found.Err? {
        ValidRuleChecks(rs.rules[i], rs.target, regex);
        return Err(found.error);
      }
      problems := problems + found.value;
    }
    assert rs.rules[..|rs.rules|] == rs.rules;
    return Ok(problems);
  }

  lemma ValidRuleChecks(rule: Rule, target: Target, regex: Regex)
    ensures ValidRule(rule, target, regex) ==> Check(rule.condition, regex, 0).Ok?
  {
  }

  lemma ValidSetsAreChecked(rs: RuleSet, regex: Regex)
    requires Valid(rs, regex)
    ensures RulesChecked(rs, regex)
  {
    hide Check, ValidFormula, ValidThresholds, ValidTieOrder, ValidCurve;
    forall rule | rule in rs.rules && rule.active ensures Check(rule.condition, regex, 0).Ok? {
      var i :| 0 <= i < |rs.rules| && rs.rules[i] == rule;
      ValidRuleChecks(rs.rules[i], rs.target, regex);
    }
  }

  // ------------------------------------------------------------------- classification

  // t is the highest threshold the priority reaches.
  ghost predicate HighestReached(ts: seq<Threshold>, priority: Milli, t: Threshold) {
    t in ts && Reaches(priority, t.min)
    && forall i :: 0 <= i < |ts| && Reaches(priority, ts[i].min) ==> AtMost(ts[i].min, t.min)
  }

  lemma {:induction false} FirstReachedIsHighest(ts: seq<Threshold>, priority: Milli) returns (t: Threshold)
    requires AllComparable(ts) && Descending(ts) && exists i :: 0 <= i < |ts| && Reaches(priority, ts[i].min)
    ensures HighestReached(ts, priority, t) && FirstReached(ts, priority) == Ok(t.classification)
  {
    hide Reaches;
    if Reaches(priority, ts[0].min) {
      t := ts[0];
    } else {
      var i :| 0 <= i < |ts| && Reaches(priority, ts[i].min);
      assert ts[1..][i - 1] == ts[i];
      t := FirstReachedIsHighest(ts[1..], priority);
      assert t in ts;
      forall k | 0 <= k < |ts| && Reaches(priority, ts[k].min) ensures AtMost(ts[k].min, t.min) {
        assert ts[1..][k - 1] == ts[k];
      }
    }
  }

  lemma HighestPermute(ts: seq<Threshold>, us: seq<Threshold>, priority: Milli, t: Threshold)
    requires multiset(ts) == multiset(us) && HighestReached(us, priority, t)
    ensures HighestReached(ts, priority, t)
  {
    hide Reaches, AtMost;
    assert t in multiset(us) && t in multiset(ts);
    forall i | 0 <= i < |ts| && Reaches(priority, ts[i].min) ensures AtMost(ts[i].min, t.min) {
      assert ts[i] in multiset(ts) && ts[i] in multiset(us);
      var j :| 0 <= j < |us| && us[j] == ts[i];
    }
  }

  lemma HighestExists(ts: seq<Threshold>, priority: Milli) returns (best: Threshold)
    requires ValidThresholds(ts) && 0 <= priority <= HUNDRED
    ensures HighestReached(ts, priority, best) && Classify(ts, priority) == Ok(best.classification)
  {
    hide AtMost, Descending, HighestReached, FirstReached;
    var sorted := SortThresholds(ts);
    SortDescends(ts);
    var zero :| 0 <= zero < |ts| && ts[zero].min == Finite(0.0);
    assert ts[zero] in multiset(ts) && ts[zero] in multiset(sorted);
    var k :| 0 <= k < |sorted| && sorted[k] == ts[zero];
    assert Reaches(priority, sorted[k].min);
    best := FirstReachedIsHighest(sorted, priority);
    HighestPermute(ts, sorted, priority, best);
  }

  // The minimum of t, in points, is reached by the thousandths, and none above it is.
  ghost predicate CoversScore(ts: seq<Threshold>, t: Threshold, priority: Milli) {
    && t.min.Finite? && 1000.0 * t.min.value <= priority as real
    && forall u :: u in ts && u.min.Finite? && 1000.0 * u.min.value <= priority as real ==> u.min.value <= t.min.value
  }

  lemma HighestCovers(ts: seq<Threshold>, priority: Milli, t: Threshold)
    requires ValidThresholds(ts) && HighestReached(ts, priority, t)
    ensures CoversScore(ts, t, priority)
  {
    var i :| 0 <= i < |ts| && ts[i] == t;
    forall u | u in ts && u.min.Finite? && 1000.0 * u.min.value <= priority as real ensures u.min.value <= t.min.value {
      var j :| 0 <= j < |ts| && ts[j] == u;
      assert Reaches(priority, ts[j].min);
    }
  }

  /**
   With valid thresholds classification never raises on 0..100 and returns the class with the
   greatest minimum not above the priority; no other class has that property.
   */
  lemma ClassificationIsTotal(ts: seq<Threshold>, priority: Milli)
    requires ValidThresholds(ts) && 0 <= priority <= HUNDRED
    ensures Classify(ts, priority).Ok?
    ensures exists t :: t in ts && t.classification == Classify(ts, priority).value && CoversScore(ts, t, priority)
    ensures forall t :: HighestReached(ts, priority, t) <==> t in ts && t.classification == Classify(ts, priority).value
  {
    hide HighestReached, Classify, ValidThresholds;
    var best := HighestExists(ts, priority);
    forall t ensures HighestReached(ts, priority, t) <==> t in ts && t.classification == best.classification {
      OneHighest(ts, priority, best, t);
    }
    assert best in ts by { OneHighest(ts, priority, best, best); }
    HighestCovers(ts, priority, best);
  }

  lemma OneHighest(ts: seq<Threshold>, priority: Milli, best: Threshold, t: Threshold)
    requires ValidThresholds(ts) && HighestReached(ts, priority, best)
    ensures HighestReached(ts, priority, t) <==> t in ts && t.classification == best.classification
  {
    hide Reaches;
    var b :| 0 <= b < |ts| && ts[b] == best;
    if t in ts {
      var i :| 0 <= i < |ts| && ts[i] == t;
      if t.classification == best.classification {
        assert i == b;
      }
      if HighestReached(ts, priority, t) {
        assert ts[i].min.value == ts[b].min.value;
        assert ts[i].min == ts[b].min;
        assert i == b;
      }
    }
  }

  // -------------------------------------------------------------------- decay curves

  // Bucket i is the one whose interval holds the age.
  predicate Covers(curve: seq<Bucket>, i: nat, age: nat) {
    && i < |curve|
    && (i == 0 || (curve[i - 1].maxDays.Some? && age > curve[i - 1].maxDays.value))
    && (curve[i].maxDays.None? || age <= curve[i].maxDays.value)
  }

  /** A valid curve has exactly one covering interval at every age, and the lookup returns its multiplier. */
  lemma {:induction false} LookupIsCovering(curve: seq<Bucket>, age: nat)
    requires ValidCurve(curve)
    ensures exists i: nat :: Covers(curve, i, age) && Lookup(curve, age) == Ok(curve[i].multiplier.value)
    ensures forall i: nat, j: nat :: Covers(curve, i, age) && Covers(curve, j, age) ==> i == j
    ensures Lookup(curve, age).Ok? && 0.0 <= Lookup(curve, age).value <= 1.0
  {
    var i := FirstCover(curve, age);
    forall j: nat, k: nat | Covers(curve, j, age) && Covers(curve, k, age) ensures j == k {
      OneCover(curve, age, j, k);
    }
  }

  lemma {:induction false} FirstCover(curve: seq<Bucket>, age: nat) returns (i: nat)
    requires ValidCurve(curve)
    ensures Covers(curve, i, age) && Lookup(curve, age) == Ok(curve[i].multiplier.value)
    ensures 0.0 <= curve[i].multiplier.value <= 1.0
  {
    if curve[0].maxDays.None? || age <= curve[0].maxDays.value {
      i := 0;
    } else {
      TailIsValid(curve);
      var j := FirstCover(curve[1..], age);
      i := j + 1;
      assert curve[i] == curve[1..][j] && (j > 0 ==> curve[i - 1] == curve[1..][j - 1]);
    }
  }

  lemma TailIsValid(curve: seq<Bucket>)
    requires ValidCurve(curve) && |curve| > 1
    ensures ValidCurve(curve[1..])
  {
  }

  lemma OneCover(curve: seq<Bucket>, age: nat, j: nat, k: nat)
    requires ValidCurve(curve) && Covers(curve, j, age) && Covers(curve, k, age)
    ensures j == k
  {
  }

  lemma DefaultCurveIsValid()
    ensures ValidCurve(DEFAULT_CURVE)
  {
  }
}
