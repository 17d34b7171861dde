/** A score is a function of the stored data, not of the order its rows come in. */
module ScoreOrder {
  import opened Ordering
  import opened Conditions
  import opened Rounding
  import opened ScoringEngine
  import opened ScoreCalculation

  // The table constraint: no two rules of a set share a key.
  ghost predicate DistinctRules(rules: seq<Rule>) {
    forall x, y :: x in rules && y in rules && x.key == y.key ==> x == y
  }

  lemma {:induction false} ActiveKeyedAre(rules: seq<Rule>, x: Keyed<Rule>)
    requires x in ActiveKeyed(rules)
    ensures x.value in rules && x.value.active && x.key == SortKey(x.value)
  {
    hide SortKey;
    assert rules == [rules[0]] + rules[1..];
    if !(rules[0].active && x == Keyed(SortKey(rules[0]), rules[0])) {
      ActiveKeyedAre(rules[1..], x);
    }
  }

  lemma SortKeyDecides(x: Rule, y: Rule)
    requires SortKey(x) == SortKey(y)
    ensures x.key == y.key && x.order == y.order
  {
    assert SortKey(x)[1..] == x.key && SortKey(y)[1..] == y.key;
    assert SortKey(x)[0] == x.order as char && SortKey(y)[0] == y.order as char;
  }

  /** Rules are totally ordered by (order, key), so their row order is forgotten. */
  lemma RulesInOrderPermute(rules: seq<Rule>, others: seq<Rule>)
    requires multiset(rules) == multiset(others) && DistinctRules(rules)
    ensures InOrder(rules) == InOrder(others)
  {
    hide SortKey, Sort;
    ConcatMapPermute(ActiveKeyed, (r: Rule) => if r.active then [Keyed(SortKey(r), r)] else [], rules, others);
    var xs := ActiveKeyed(rules);
    forall x, y | x in xs && y in xs && x.key == y.key ensures x == y {
      ActiveKeyedAre(rules, x);
      ActiveKeyedAre(rules, y);
      SortKeyDecides(x.value, y.value);
    }
    SortIsCanonical(xs, ActiveKeyed(others));
  }

  lemma InOrderAreRules(rules: seq<Rule>, rule: Rule)
    requires rule in InOrder(rules)
    ensures rule in rules && rule.active
  {
    hide Sort, SortKey;
    var xs := ActiveKeyed(rules);
    SortSorts(xs);
    SameMembers(Sort(xs), xs);
    var i :| 0 <= i < |Sort(xs)| && Sort(xs)[i].value == rule;
    assert Sort(xs)[i] in xs;
    ActiveKeyedAre(rules, Sort(xs)[i]);
  }

  lemma {:induction false} ActiveIsKeyed(rules: seq<Rule>, rule: Rule)
    requires rule in rules && rule.active
    ensures Keyed(SortKey(rule), rule) in ActiveKeyed(rules)
  {
    hide SortKey;
    assert rules == [rules[0]] + rules[1..];
    if rule != rules[0] {
      ActiveIsKeyed(rules[1..], rule);
    }
  }

  lemma ActiveIsInOrder(rules: seq<Rule>, rule: Rule)
    requires rule in rules && rule.active
    ensures rule in InOrder(rules)
  {
    hide Sort, SortKey;
    var xs, x := ActiveKeyed(rules), Keyed(SortKey(rule), rule);
    ActiveIsKeyed(rules, rule);
    SortSorts(xs);
    SameMembers(xs, Sort(xs));
    var i :| 0 <= i < |Sort(xs)| && Sort(xs)[i] == x;
    assert InOrder(rules)[i] == rule;
  }

  // ---------------------------------------------------------------------- the formula

  // The weights, in formula order; a term that fails counts nothing.
  function TermWeights(formula: seq<Term>, dims: map<string, Milli>, best: Milli): (r: seq<Milli>)
    ensures |r| == |formula|
    ensures forall i :: 0 <= i < |r| ==> r[i] == WeightOf(formula[i], dims, best)
  {
    seq(|formula|, i requires 0 <= i < |formula| => WeightOf(formula[i], dims, best))
  }

  function WeightOf(t: Term, dims: map<string, Milli>, best: Milli): Milli {
    match WeightedTerm(t, dims, best) case Ok(w) => w.weighted case Err(_) => 0
  }

  lemma WeightsAreTermWeights(formula: seq<Term>, dims: map<string, Milli>, best: Milli)
    requires Detail(formula, dims, best).Ok?
    ensures WeightsOf(Detail(formula, dims, best).value) == TermWeights(formula, dims, best)
  {
    hide WeightedTerm;
  }

  lemma TermWeightsPermute(formula: seq<Term>, other: seq<Term>, dims: map<string, Milli>, best: Milli)
    requires multiset(formula) == multiset(other)
    ensures multiset(TermWeights(formula, dims, best)) == multiset(TermWeights(other, dims, best))
  {
    hide WeightOf;
    var f := (ts: seq<Term>) => TermWeights(ts, dims, best);
    forall a, b ensures f(a + b) == f(a) + f(b) {
    }
    ElementwisePermute(f, formula, other);
  }

  /** The formula succeeds exactly when each of its terms does. */
  lemma {:induction false} DetailSucceedsExactly(formula: seq<Term>, dims: map<string, Milli>, best: Milli)
    ensures Detail(formula, dims, best).Ok? <==> forall i :: 0 <= i < |formula| ==> WeightedTerm(formula[i], dims, best).Ok?
  {
    hide WeightedTerm;
    if formula != [] {
      var init := formula[..|formula| - 1];
      DetailSucceedsExactly(init, dims, best);
      assert forall i :: 0 <= i < |init| ==> init[i] == formula[i];
    }
  }

  lemma DetailPermute(formula: seq<Term>, other: seq<Term>, dims: map<string, Milli>, best: Milli)
    requires multiset(formula) == multiset(other) && Detail(formula, dims, best).Ok?
    ensures Detail(other, dims, best).Ok?
    ensures Priority(Detail(formula, dims, best).value) == Priority(Detail(other, dims, best).value)
  {
    hide WeightedTerm, Detail, TermWeights;
    SameMembers(formula, other);
    DetailSucceedsExactly(formula, dims, best);
    DetailSucceedsExactly(other, dims, best);
    forall i | 0 <= i < |other| ensures WeightedTerm(other[i], dims, best).Ok? {
      assert other[i] in formula;
      var j :| 0 <= j < |formula| && formula[j] == other[i];
    }
    WeightsAreTermWeights(formula, dims, best);
    WeightsAreTermWeights(other, dims, best);
    TermWeightsPermute(formula, other, dims, best);
    SumPermute(TermWeights(formula, dims, best), TermWeights(other, dims, best));
  }

  lemma SameRows(rows: seq<Signal>, again: seq<Signal>, stored: seq<Signal>, reordered: seq<Signal>, asOf: Time)
    requires multiset(stored) == multiset(reordered) && QueryRows(rows, stored, asOf) && QueryRows(again, reordered, asOf)
    ensures multiset(rows) == multiset(again)
  {
    assert forall s :: multiset(rows)[s] == multiset(again)[s];
  }

  // The same rule set up to the order of its rules and formula entries.
  ghost predicate SameSet(rs: RuleSet, other: RuleSet) {
    rs.target == other.target && rs.thresholds == other.thresholds && rs.tieOrder == other.tieOrder
    && multiset(rs.rules) == multiset(other.rules) && multiset(rs.formula) == multiset(other.formula)
  }

  lemma OutcomePermute(rs: RuleSet, other: RuleSet, s: Loop)
    requires SameSet(rs, other)
    ensures Outcome(rs, s).Ok? ==>
      Outcome(other, s).Ok? && Outcome(other, s).value == Outcome(rs, s).value.(formulaDetail := Outcome(other, s).value.formulaDetail)
  {
    hide Detail, Dimensions, KnownDimensions, Classify, TiedProducts, Priority, BestOf;
    if KnownDimensions(s.matches) {
      var dims := Dimensions(s.matches);
      if Detail(rs.formula, dims, BestOf(rs.target, dims)).Ok? {
        DetailPermute(rs.formula, other.formula, dims, BestOf(rs.target, dims));
      }
    }
  }

  // What orders of the rows agree on: nothing reads the text of the set of types, or it is the same.
  ghost predicate ShownAlike(rs: RuleSet, rows: seq<Signal>, again: seq<Signal>, show: seq<string> -> string) {
    show(TypesInOrder(rows)) == show(TypesInOrder(again)) || NoneReadsShown(InOrder(rs.rules))
  }

  lemma LoopPermute(c: Company, rs: RuleSet, other: RuleSet, rows: seq<Signal>, again: seq<Signal>, asOf: Time,
                    regex: Regex, show: seq<string> -> string)
    requires SameSet(rs, other) && DistinctRules(rs.rules) && multiset(rows) == multiset(again) && ShownAlike(rs, rows, again, show)
    ensures RunRules(InOrder(rs.rules), ContextOf(c, rows, asOf, regex, show))
         == RunRules(InOrder(other.rules), ContextOf(c, again, asOf, regex, show))
  {
    hide RunRules, InOrder, TypesOf, NoneReadsShown;
    RulesInOrderPermute(rs.rules, other.rules);
    PermutedView(c, rows, again, asOf, regex, show);
    TypesPermute(rows, again);
    RunRulesSameView(InOrder(rs.rules), ContextOf(c, rows, asOf, regex, show), ContextOf(c, again, asOf, regex, show));
  }

  /**
   The stored signals in any order, their query in any order it leaves open (ties on the observation
   time), the rules or the formula entries in any order: as long as no active rule reads the text of
   the set of signal types, a score keeps its dimensions, priority, classification, best and tied
   products and contributions, and no order makes a score that another order refuses.
   */
  lemma ScoreIgnoresRowOrder(c: Company, rs: RuleSet, other: RuleSet, stored: seq<Signal>, reordered: seq<Signal>,
                             rows: seq<Signal>, again: seq<Signal>, asOf: Time, regex: Regex, show: seq<string> -> string)
    requires SameSet(rs, other) && DistinctRules(rs.rules) && multiset(stored) == multiset(reordered)
    requires QueryRows(rows, stored, asOf) && QueryRows(again, reordered, asOf) && ShownAlike(rs, rows, again, show)
    ensures var a, b := Score(c, rs, rows, asOf, regex, show), Score(c, other, again, asOf, regex, show);
      && (a.Ok? <==> b.Ok?)
      && (a.Ok? ==> b.value == a.value.(formulaDetail := b.value.formulaDetail))
  {
    hide RunRules, InOrder, Outcome, ContextOf, ShownAlike;
    SameRows(rows, again, stored, reordered, asOf);
    LoopPermute(c, rs, other, rows, again, asOf, regex, show);
    var loop := RunRules(InOrder(rs.rules), ContextOf(c, rows, asOf, regex, show));
    if loop.Ok? {
      OutcomePermute(rs, other, loop.value);
      OutcomePermute(other, rs, loop.value);
    }
  }
}
