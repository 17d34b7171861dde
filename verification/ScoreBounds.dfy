/** Rounding error of the priority, critical outcomes and best products. */
module ScoreBounds {
  import opened Basics
  import opened Numbers
  import opened Conditions
  import opened Rounding
  import opened ScoringEngine

  // -------------------------------------------------------- reconstruction and rounding

  function ExactTerm(w: Weighted): real {
    w.score as real * w.coefficient
  }

  // The formula on the stored dimensions, without rounding.
  function Exact(detail: seq<Weighted>): real {
    if detail == [] then 0.0 else ExactTerm(detail[0]) + Exact(detail[1..])
  }

  ghost predicate RoundedTerms(detail: seq<Weighted>) {
    forall i :: 0 <= i < |detail| ==> -0.5 <= detail[i].weighted as real - ExactTerm(detail[i]) <= 0.5
  }

  lemma {:induction false} SumIsClose(detail: seq<Weighted>)
    requires RoundedTerms(detail)
    ensures var e := 0.5 * |detail| as real; -e <= Sum(WeightsOf(detail)) as real - Exact(detail) <= e
  {
    hide ExactTerm;
    if detail == [] {
    } else {
      var rest := detail[1..];
      assert forall i :: 0 <= i < |rest| ==> rest[i] == detail[i + 1];
      SumIsClose(rest);
      assert WeightsOf(detail)[1..] == WeightsOf(rest);
    }
  }

  lemma TermIsClose(t: Term, dims: map<string, Milli>, best: Milli)
    requires WeightedTerm(t, dims, best).Ok?
    ensures var w := WeightedTerm(t, dims, best).value; -0.5 <= w.weighted as real - ExactTerm(w) <= 0.5
  {
    TimesIsClose(FormulaValue(t.name, dims, best), t.coefficient.value);
    hide Times;
  }

  lemma TimesIsClose(x: Milli, c: real)
    ensures -0.5 <= Times(x, c) as real - Scaled(x, c) <= 0.5
  {
  }

  lemma DetailIsRounded(formula: seq<Term>, dims: map<string, Milli>, best: Milli)
    requires Detail(formula, dims, best).Ok?
    ensures RoundedTerms(Detail(formula, dims, best).value)
  {
    hide WeightedTerm, ExactTerm;
    var detail := Detail(formula, dims, best).value;
    forall i | 0 <= i < |detail| ensures -0.5 <= detail[i].weighted as real - ExactTerm(detail[i]) <= 0.5 {
      TermIsClose(formula[i], dims, best);
    }
  }

  // For an industry the largest of its three product dimensions, and nothing for a partner.
  ghost predicate IsBestProduct(score: Milli, target: Target, dims: map<string, Milli>) {
    if target == Industry then
      && (forall p :: p in {"MES", "CMMS", "PULSE"} && p in dims ==> dims[p] <= score)
      && exists p :: p in {"MES", "CMMS", "PULSE"} && p in dims && dims[p] == score
    else score == 0
  }

  // A listed term shows its name, its coefficient and the stored dimension it weighs.
  ghost predicate ListsTerm(w: Weighted, t: Term, target: Target, dims: map<string, Milli>) {
    && w.name == t.name && t.coefficient == Finite(w.coefficient)
    && if t.name == "BEST_PRODUCT" then IsBestProduct(w.score, target, dims)
       else w.score == if t.name in dims then dims[t.name] else 0
  }

  lemma BestIsBest(target: Target, dims: map<string, Milli>)
    requires dims.Keys == DIMENSIONS
    ensures IsBestProduct(BestOf(target, dims), target, dims)
  {
    if target == Industry {
      assert "MES" in dims && "CMMS" in dims && "PULSE" in dims;
      var best := BestOf(target, dims);
      assert dims["MES"] == best || dims["CMMS"] == best || dims["PULSE"] == best;
    }
  }

  lemma DetailLists(formula: seq<Term>, target: Target, dims: map<string, Milli>)
    requires dims.Keys == DIMENSIONS && Detail(formula, dims, BestOf(target, dims)).Ok?
    ensures var detail := Detail(formula, dims, BestOf(target, dims)).value;
      |detail| == |formula| && forall i :: 0 <= i < |formula| ==> ListsTerm(detail[i], formula[i], target, dims)
  {
    hide Quantized, BestOf, IsBestProduct;
    BestIsBest(target, dims);
  }

  /**
   A snapshot can be recomputed from what it stores: every dimension is the clamped sum of its
   contributions, the priority is the clamped sum of the listed terms, lies in 0..100, and with n
   formula terms is within n x 0.0005 points of the clamped formula without rounding.
   */
  lemma SnapshotReconstructs(c: Company, rs: RuleSet, rows: seq<Signal>, asOf: Time, regex: Regex, show: seq<string> -> string)
    requires Score(c, rs, rows, asOf, regex, show).Ok?
    ensures var s := Score(c, rs, rows, asOf, regex, show).value;
      && (forall d :: d in DIMENSIONS ==> d in s.dimensions && s.dimensions[d] == Clamp(Raw(s.contributions, d)))
      && s.priority == Clamp(Sum(WeightsOf(s.formulaDetail))) && 0 <= s.priority <= HUNDRED
      && |s.formulaDetail| == |rs.formula|
      && (var e := 0.5 * |rs.formula| as real; -e <= s.priority as real - ClampReal(Exact(s.formulaDetail)) <= e)
      && (forall i :: 0 <= i < |rs.formula| ==> ListsTerm(s.formulaDetail[i], rs.formula[i], rs.target, s.dimensions))
  {
    hide RunRules, InOrder, Raw, Grade, TiedProducts, Exact, KnownDimensions, Clamp, TypesOf, ListsTerm, BestOf, WeightedTerm;
    var s := Score(c, rs, rows, asOf, regex, show).value;
    DetailLists(rs.formula, rs.target, s.dimensions);
    DetailIsRounded(rs.formula, s.dimensions, BestOf(rs.target, s.dimensions));
    SumIsClose(s.formulaDetail);
    ClampIsClose(Sum(WeightsOf(s.formulaDetail)), Exact(s.formulaDetail), 0.5 * |rs.formula| as real);
  }

  // ----------------------------------------------------------- outcomes and products

  // The critical outcome of the last match that has one.
  function LastCritical(ms: seq<Matched>): string {
    if ms == [] then ""
    else if ms[|ms| - 1].rule.critical != "" then ms[|ms| - 1].rule.critical
    else LastCritical(ms[..|ms| - 1])
  }

  lemma LastCriticalNext(ms: seq<Matched>, m: Matched)
    ensures LastCritical(ms + [m]) == if m.rule.critical != "" then m.rule.critical else LastCritical(ms)
  {
    assert (ms + [m])[..|ms|] == ms;
  }

  lemma MatchCritical(s: Loop, rule: Rule, h: Hit)
    requires s.critical == LastCritical(s.matches)
    ensures var t := AddMatch(s, rule, h.multiplier, h.effective, h.observedAt); t.critical == LastCritical(t.matches)
  {
    hide LastCritical, UnderCap;
    var t := AddMatch(s, rule, h.multiplier, h.effective, h.observedAt);
    LastCriticalNext(s.matches, t.matches[|s.matches|]);
    assert t.matches == s.matches + [t.matches[|s.matches|]];
  }

  lemma {:induction false} CriticalIsLast(rules: seq<Rule>, c: Context)
    requires RunRules(rules, c).Ok?
    ensures RunRules(rules, c).value.critical == LastCritical(RunRules(rules, c).value.matches)
  {
    hide HitOf, AddMatch;
    if rules != [] {
      var init, rule := rules[..|rules| - 1], rules[|rules| - 1];
      CriticalIsLast(init, c);
      if HitOf(rule, c).value.Some? {
        MatchCritical(RunRules(init, c).value, rule, HitOf(rule, c).value.value);
      }
    }
  }

  /** A critical outcome overrides the thresholds; without one the thresholds classify. */
  lemma CriticalOverrides(c: Company, rs: RuleSet, rows: seq<Signal>, asOf: Time, regex: Regex, show: seq<string> -> string)
    requires Score(c, rs, rows, asOf, regex, show).Ok?
    ensures var s := Score(c, rs, rows, asOf, regex, show).value; var critical := LastCritical(s.contributions);
      if critical != "" then s.classification == critical else Classify(rs.thresholds, s.priority) == Ok(s.classification)
  {
    hide RunRules, InOrder, Detail, Dimensions, KnownDimensions, Classify, TiedProducts, TypesOf;
    CriticalIsLast(InOrder(rs.rules), ContextOf(c, rows, asOf, regex, show));
  }

  // The first product of an order that attains the best value.
  ghost predicate FirstBest(order: seq<string>, dims: map<string, Milli>, p: string) {
    exists i :: 0 <= i < |order| && order[i] == p && p in PRODUCTS && At(dims, p) == BestValue(dims)
      && forall j :: 0 <= j < i ==> order[j] !in PRODUCTS || At(dims, order[j]) < BestValue(dims)
  }

  lemma {:induction false} TiedStartsWithFirst(order: seq<string>, dims: map<string, Milli>)
    requires Tied(order, dims) != []
    ensures FirstBest(order, dims, Tied(order, dims)[0])
  {
    hide BestValue, At;
    AtMostBest(dims);
    if order[0] in PRODUCTS && At(dims, order[0]) == BestValue(dims) {
      assert order[0] == Tied(order, dims)[0];
    } else {
      TiedStartsWithFirst(order[1..], dims);
      var p := Tied(order[1..], dims)[0];
      var i :| 0 <= i < |order[1..]| && order[1..][i] == p && p in PRODUCTS && At(dims, p) == BestValue(dims)
        && forall j :: 0 <= j < i ==> order[1..][j] !in PRODUCTS || At(dims, order[1..][j]) < BestValue(dims);
      assert order[i + 1] == p;
      forall j | 0 <= j < i + 1 ensures order[j] !in PRODUCTS || At(dims, order[j]) < BestValue(dims) {
        if j > 0 {
          assert order[j] == order[1..][j - 1];
        }
      }
    }
  }

  lemma AtMostBest(dims: map<string, Milli>)
    ensures forall p :: p in PRODUCTS ==> At(dims, p) <= BestValue(dims)
  {
  }

  /**
   The best product of an industry attains the largest of the three product dimensions, comes
   first among those in the tie order (or in MES, CMMS, PULSE when the order names none of them),
   and the tied products are exactly those that attain it.
   */
  lemma BestProductIsBest(order: seq<string>, dims: map<string, Milli>)
    ensures var tied := TiedProducts(order, dims); var chain := if Tied(order, dims) != [] then order else PRODUCTS;
      && tied != [] && FirstBest(chain, dims, tied[0])
      && (forall p :: p in tied <==> p in chain && p in PRODUCTS && At(dims, p) == BestValue(dims))
      && (forall p :: p in PRODUCTS ==> At(dims, p) <= At(dims, tied[0]))
  {
    hide BestValue, At, FirstBest, Tied;
    AtMostBest(dims);
    var chain := if Tied(order, dims) != [] then order else PRODUCTS;
    assert TiedProducts(order, dims) == Tied(chain, dims);
    TiedStartsWithFirst(chain, dims);
    assert Tied(chain, dims)[0] in Tied(chain, dims);
  }
}
