/** The loops of `calculate_score`, against the scoring function. */
module ScoreCalculation {
  import opened Basics
  import opened Ordering
  import opened Conditions
  import opened Rounding
  import opened ScoringEngine
  import opened ScoreMeaning

  // The rows the signal query returns: active, observed by now, not expired, newest observation first.
  ghost predicate QueryRows(rows: seq<Signal>, stored: seq<Signal>, asOf: Time) {
    && (forall s :: multiset(rows)[s] ==
          if s.active && s.observedAt <= asOf && (s.expiresAt.Some? ==> asOf < s.expiresAt.value) then multiset(stored)[s] else 0)
    && forall i, j :: 0 <= i < j < |rows| ==> rows[i].observedAt >= rows[j].observedAt
  }

  /** The latest relevant observation does not depend on the order of the rows. */
  lemma LatestPermute(xs: seq<Signal>, ys: seq<Signal>, types: set<string>)
    requires multiset(xs) == multiset(ys)
    ensures Latest(xs, types) == Latest(ys, types)
  {
    hide IsRelevant, Latest;
    SameMembers(xs, ys);
    var s, t := Latest(xs, types), Latest(ys, types);
    if s.Some? {
      var x :| x in xs && IsRelevant(x, types) && x.observedAt == s.value;
      assert x in ys;
    }
    if t.Some? {
      var y :| y in ys && IsRelevant(y, types) && y.observedAt == t.value;
      assert y in xs;
    }
  }

  lemma TypesPermute(xs: seq<Signal>, ys: seq<Signal>)
    requires multiset(xs) == multiset(ys)
    ensures TypesOf(xs) == TypesOf(ys)
  {
    SameMembers(xs, ys);
    forall t ensures t in TypesOf(xs) <==> t in TypesOf(ys) {
      if t in TypesOf(xs) {
        var i :| 0 <= i < |xs| && xs[i].signalType == t;
        assert xs[i] in ys;
        var j :| 0 <= j < |ys| && ys[j] == xs[i];
      }
      if t in TypesOf(ys) {
        var i :| 0 <= i < |ys| && ys[i].signalType == t;
        assert ys[i] in xs;
        var j :| 0 <= j < |xs| && xs[j] == ys[i];
      }
    }
  }

  // Contexts that differ at most in the order of their signals and in the text of their types.
  ghost predicate SameView(c: Context, d: Context) {
    EqualButShown(c.facts, d.facts) && c.asOf == d.asOf && c.regex == d.regex
    && forall types: set<string> :: Latest(c.signals, types) == Latest(d.signals, types)
  }

  ghost predicate NoneReadsShown(rules: seq<Rule>) {
    forall i :: 0 <= i < |rules| ==> !ReadsShown(rules[i].condition)
  }

  lemma HitSameView(rule: Rule, c: Context, d: Context)
    requires SameView(c, d) && (c.facts == d.facts || !ReadsShown(rule.condition))
    ensures HitOf(rule, c) == HitOf(rule, d)
  {
    hide Evaluate, SignalTypes, Decay, Latest, ReadsShown;
    if c.facts != d.facts {
      EvaluateIgnoresShown(rule.condition, c.facts, d.facts, c.regex, 0);
    }
  }

  lemma {:induction false} RunRulesSameView(rules: seq<Rule>, c: Context, d: Context)
    requires SameView(c, d) && (c.facts == d.facts || NoneReadsShown(rules))
    ensures RunRules(rules, c) == RunRules(rules, d)
  {
    hide HitOf, AddMatch, SameView, ReadsShown;
    if rules != [] {
      RunRulesSameView(rules[..|rules| - 1], c, d);
      HitSameView(rules[|rules| - 1], c, d);
    }
  }

  lemma PermutedView(c: Company, xs: seq<Signal>, ys: seq<Signal>, asOf: Time, regex: Regex, show: seq<string> -> string)
    requires multiset(xs) == multiset(ys)
    ensures SameView(ContextOf(c, xs, asOf, regex, show), ContextOf(c, ys, asOf, regex, show))
  {
    hide Latest, TypesOf;
    TypesPermute(xs, ys);
    forall types: set<string> ensures Latest(xs, types) == Latest(ys, types) {
      LatestPermute(xs, ys, types);
    }
  }

  // `next(signal for signal in signals if signal.signal_type in relevant_types)`
  method FirstRelevant(rows: seq<Signal>, types: set<string>) returns (observedAt: Option<Time>)
    requires forall i, j :: 0 <= i < j < |rows| ==> rows[i].observedAt >= rows[j].observedAt
    ensures observedAt == Latest(rows, types)
  {
    hide Latest;
    for i := 0 to |rows|
      invariant forall j :: 0 <= j < i ==> !IsRelevant(rows[j], types)
    {
      if IsRelevant(rows[i], types) {
        FirstIsLatest(rows, types, i);
        return Some(rows[i].observedAt);
      }
    }
    return None;
  }

  lemma FirstIsLatest(rows: seq<Signal>, types: set<string>, i: nat)
    requires i < |rows| && IsRelevant(rows[i], types)
    requires forall j :: 0 <= j < i ==> !IsRelevant(rows[j], types)
    requires forall j :: i < j < |rows| ==> rows[i].observedAt >= rows[j].observedAt
    ensures Latest(rows, types) == Some(rows[i].observedAt)
  {
    assert rows[i] in rows;
  }

  lemma {:induction false} FailsEarly(rules: seq<Rule>, k: nat, c: Context)
    requires k <= |rules| && RunRules(rules[..k], c).Err?
    ensures RunRules(rules, c) == RunRules(rules[..k], c)
    decreases |rules|
  {
    hide Step;
    if k < |rules| {
      var init := rules[..|rules| - 1];
      assert init[..k] == rules[..k];
      FailsEarly(init, k, c);
    } else {
      assert rules[..k] == rules;
    }
  }

  lemma NextRule(rules: seq<Rule>, i: nat, c: Context)
    requires i < |rules| && RunRules(rules[..i], c).Ok?
    ensures RunRules(rules[..i + 1], c) == Step(RunRules(rules[..i], c).value, rules[i], c)
  {
    hide Step;
    assert rules[..i + 1][..i] == rules[..i];
  }

  // One matched rule: the group cap and the critical outcome.
  method ApplyRule(s: Loop, rule: Rule, multiplier: real, decayed: Milli, observedAt: Option<Time>) returns (t: Loop)
    ensures t == AddMatch(s, rule, multiplier, decayed, observedAt)
  {
    var effective, totals := decayed, s.totals;
    if rule.groupKey != "" && rule.groupCap.Some? && effective > 0 {
      var used := if rule.groupKey in totals then totals[rule.groupKey] else 0;
      effective := Max(0, Min(effective, rule.groupCap.value - used));
      totals := totals[rule.groupKey := used + effective];
    }
    t := Loop(s.matches + [Matched(rule, multiplier, effective, observedAt)], totals,
              if rule.critical != "" then rule.critical else s.critical);
  }

  method MatchRules(rules: seq<Rule>, c: Context) returns (r: Result<Loop, Fault>)
    requires forall i, j :: 0 <= i < j < |c.signals| ==> c.signals[i].observedAt >= c.signals[j].observedAt
    ensures r == RunRules(rules, c)
  {
    hide Evaluate, SignalTypes, Latest, RunRules, Multiplier, AddMatch, Quantized;
    var state := Loop([], map[], "");
    NoRules(c);
    for i := 0 to |rules|
      invariant RunRules(rules[..i], c) == Ok(state)
    {
      var rule := rules[i];
      NextRule(rules, i, c);
      var matched := Evaluate(rule.condition, c.facts, c.regex, 0);
      if matched.Err? {
        FailsEarly(rules, i + 1, c);
        return Err(matched.error);
      }
      if matched.value {
        var types := SignalTypes(rule.condition);
        if types.Err? {
          FailsEarly(rules, i + 1, c);
          return Err(types.error);
        }
        var observedAt := FirstRelevant(c.signals, types.value);
        var multiplier := Multiplier(rule, observedAt, c.asOf);
        if multiplier.Err? {
          FailsEarly(rules, i + 1, c);
          return Err(multiplier.error);
        }
        var effective := Quantized(rule.points, multiplier.value);
        if effective.None? {
          FailsEarly(rules, i + 1, c);
          return Err(TypeFault);
        }
        state := ApplyRule(state, rule, multiplier.value, effective.value, observedAt);
      }
    }
    assert rules[..|rules|] == rules;
    return Ok(state);
  }

  lemma NoRules(c: Context)
    ensures RunRules([], c) == Ok(Loop([], map[], ""))
  {
  }

  lemma RawNext(matches: seq<Matched>, i: nat)
    requires i < |matches|
    ensures forall name :: Raw(matches[..i + 1], name)
                        == Raw(matches[..i], name) + (if matches[i].rule.dimension == name then matches[i].effective else 0)
  {
    assert matches[..i + 1][..i] == matches[..i];
  }

  lemma NothingRaw()
    ensures forall name :: Raw([], name) == 0
  {
  }

  method AddDimensions(matches: seq<Matched>) returns (ok: bool, dims: map<string, Milli>)
    ensures ok <==> KnownDimensions(matches)
    ensures ok ==> dims == Dimensions(matches)
  {
    hide Raw, Clamp;
    dims := map name | name in DIMENSIONS :: 0;
    NothingRaw();
    assert matches[..0] == [];
    for i := 0 to |matches|
      invariant KnownDimensions(matches[..i]) && dims.Keys == DIMENSIONS
      invariant forall name :: name in DIMENSIONS ==> dims[name] == Raw(matches[..i], name)
    {
      var m := matches[i];
      RawNext(matches, i);
      if m.rule.dimension !in dims {
        return false, dims;
      }
      dims := dims[m.rule.dimension := dims[m.rule.dimension] + m.effective];
    }
    assert matches[..|matches|] == matches;
    dims := map name | name in dims :: Clamp(dims[name]);
    return true, dims;
  }

  lemma DetailNext(formula: seq<Term>, i: nat, dims: map<string, Milli>, best: Milli)
    requires i < |formula| && Detail(formula[..i], dims, best).Ok?
    ensures Detail(formula[..i + 1], dims, best) ==
      match WeightedTerm(formula[i], dims, best)
      case Err(e) => Err(e)
      case Ok(w) => Ok(Detail(formula[..i], dims, best).value + [w])
  {
    hide WeightedTerm;
    assert formula[..i + 1][..i] == formula[..i];
  }

  lemma {:induction false} DetailFailsEarly(formula: seq<Term>, k: nat, dims: map<string, Milli>, best: Milli)
    requires k <= |formula| && Detail(formula[..k], dims, best).Err?
    ensures Detail(formula, dims, best) == Detail(formula[..k], dims, best)
    decreases |formula|
  {
    hide WeightedTerm;
    if k < |formula| {
      var init := formula[..|formula| - 1];
      assert init[..k] == formula[..k];
      DetailFailsEarly(init, k, dims, best);
    } else {
      assert formula[..k] == formula;
    }
  }

  lemma WeightsNext(detail: seq<Weighted>, w: Weighted)
    ensures Sum(WeightsOf(detail + [w])) == Sum(WeightsOf(detail)) + w.weighted
  {
    SumLast(WeightsOf(detail), w.weighted);
    assert WeightsOf(detail + [w]) == WeightsOf(detail) + [w.weighted];
  }

  method AddFormula(formula: seq<Term>, dims: map<string, Milli>, best: Milli)
      returns (r: Result<seq<Weighted>, Fault>, priority: Milli)
    ensures r == Detail(formula, dims, best)
    ensures r.Ok? ==> priority == Priority(r.value)
  {
    hide Quantized, Sum, WeightsOf, Detail;
    var detail := [];
    priority := 0;
    NoTerms(dims, best);
    assert formula[..0] == [];
    for i := 0 to |formula|
      invariant Detail(formula[..i], dims, best) == Ok(detail)
      invariant priority == Sum(WeightsOf(detail))
    {
      var t := formula[i];
      DetailNext(formula, i, dims, best);
      var value := if t.name == "BEST_PRODUCT" then best else At(dims, t.name);
      if t.coefficient.Malformed? {
        DetailFailsEarly(formula, i + 1, dims, best);
        return Err(Misconfigured), priority;
      }
      if !t.coefficient.Finite? {
        DetailFailsEarly(formula, i + 1, dims, best);
        return Err(TypeFault), priority;
      }
      var weighted := Quantized(value, t.coefficient.value);
      if weighted.None? {
        DetailFailsEarly(formula, i + 1, dims, best);
        return Err(TypeFault), priority;
      }
      var w := Weighted(t.name, value, t.coefficient.value, weighted.value);
      WeightsNext(detail, w);
      priority := priority + weighted.value;
      detail := detail + [w];
    }
    assert formula[..|formula|] == formula;
    priority := Clamp(priority);
    return Ok(detail), priority;
  }

  lemma NoTerms(dims: map<string, Milli>, best: Milli)
    ensures Detail([], dims, best) == Ok([]) && Sum(WeightsOf([])) == 0
  {
  }

  class SnapshotStore {
    var snapshots: seq<Snapshot>

    constructor ()
      ensures snapshots == []
    {
      snapshots := [];
    }

    /** `calculate_score`: one transaction, a snapshot with its contributions or nothing. */
    method CalculateScore(c: Company, rs: RuleSet, status: SetStatus, allowDraft: bool, rows: seq<Signal>, asOf: Time, regex: Regex,
                          show: seq<string> -> string, ghost stored: seq<Signal>)
        returns (r: Result<Snapshot, Fault>)
      requires QueryRows(rows, stored, asOf)
      modifies this
      ensures r == if Usable(status, allowDraft) then Score(c, rs, rows, asOf, regex, show) else Err(Misconfigured)
      ensures snapshots == old(snapshots) + if r.Ok? then [r.value] else []
      ensures r.Ok? ==> c.target == rs.target && (status == Published || (allowDraft && status == Draft))
      ensures r.Ok? && RulesChecked(rs, regex) ==> SnapshotMeant(r.value, c, rs, rows, asOf, regex, show)
    {
      hide RunRules, InOrder, Detail, Dimensions, KnownDimensions, Classify, Tied, TypesOf, SnapshotMeant, RulesChecked;
      if rs.target != c.target || !Usable(status, allowDraft) {
        return Err(Misconfigured);
      }
      var loop := MatchRules(InOrder(rs.rules), ContextOf(c, rows, asOf, regex, show));
      if loop.Err? {
        return Err(loop.error);
      }
      var ok, dims := AddDimensions(loop.value.matches);
      if !ok {
        return Err(TypeFault);
      }
      var best, tied, bestProduct := 0, [], "";
      if rs.target == Industry {
        best := Max(Max(At(dims, "MES"), At(dims, "CMMS")), At(dims, "PULSE"));
        tied := TiedProducts(rs.tieOrder, dims);
        bestProduct := tied[0];
      }
      var detail, priority := AddFormula(rs.formula, dims, best);
      if detail.Err? {
        return Err(detail.error);
      }
      var grade := if loop.value.critical != "" then Ok(loop.value.critical) else Classify(rs.thresholds, priority);
      if grade.Err? {
        return Err(grade.error);
      }
      if |grade.value| > CLASSIFICATION_WIDTH {
        return Err(Refused);
      }
      r := Ok(Snapshot(dims, priority, grade.value, bestProduct, tied, detail.value, loop.value.matches));
      snapshots := snapshots + [r.value];
      if RulesChecked(rs, regex) {
        ScoreMeans(c, rs, rows, asOf, regex, show);
      }
    }
  }
}
