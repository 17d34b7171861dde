/** Group caps: what the capped rules of a group may add, whatever the order of the rules. */
module GroupCaps {
  import opened Basics
  import opened Ordering
  import opened Conditions
  import opened Rounding
  import opened ScoringEngine

  // ------------------------------------------------------------------------ group caps

  // The points a match had before its cap.
  function Decayed(m: Matched): Milli {
    Times(m.rule.points, m.multiplier)
  }

  predicate InGroup(m: Matched, g: string) {
    Capped(m.rule, Decayed(m)) && m.rule.groupKey == g
  }

  // The largest nonnegative cap seen in the group.
  function LargestCap(ms: seq<Matched>, g: string): Milli {
    if ms == [] then 0
    else
      var m, rest := ms[|ms| - 1], LargestCap(ms[..|ms| - 1], g);
      if InGroup(m, g) then Max(rest, m.rule.groupCap.value) else rest
  }

  // What the capped matches of the group were left with, and what they had.
  function Kept(ms: seq<Matched>, g: string): Milli {
    if ms == [] then 0
    else Kept(ms[..|ms| - 1], g) + if InGroup(ms[|ms| - 1], g) then ms[|ms| - 1].effective else 0
  }

  function Earned(ms: seq<Matched>, g: string): Milli {
    if ms == [] then 0
    else Earned(ms[..|ms| - 1], g) + if InGroup(ms[|ms| - 1], g) then Decayed(ms[|ms| - 1]) else 0
  }

  lemma HitIsTimes(rule: Rule, c: Context)
    requires HitOf(rule, c).Ok? && HitOf(rule, c).value.Some?
    ensures HitOf(rule, c).value.value.effective == Times(rule.points, HitOf(rule, c).value.value.multiplier)
  {
    hide Evaluate, SignalTypes, Multiplier, Times;
  }

  lemma AddMatchAppends(s: Loop, rule: Rule, h: Hit)
    requires h.effective == Times(rule.points, h.multiplier)
    ensures var t := AddMatch(s, rule, h.multiplier, h.effective, h.observedAt);
      && |t.matches| == |s.matches| + 1 && t.matches[..|s.matches|] == s.matches
      && (var last := t.matches[|s.matches|];
          last.rule == rule && last.multiplier == h.multiplier
          && last.effective == (if Capped(rule, h.effective)
                                then UnderCap(h.effective, rule.groupCap.value, Used(s.totals, rule.groupKey))
                                else h.effective))
      && (forall g :: Used(t.totals, g) == Used(s.totals, g) + if InGroup(t.matches[|s.matches|], g) then t.matches[|s.matches|].effective else 0)
  {
    hide Times;
  }

  /**
   At every point of the rule loop a group's total is what its matches were left with, and stays
   between zero and the largest nonnegative cap seen in the group.
   */
  lemma {:induction false} TotalsStayUnderCaps(rules: seq<Rule>, c: Context, g: string)
    requires RunRules(rules, c).Ok?
    ensures var s := RunRules(rules, c).value;
      Used(s.totals, g) == Kept(s.matches, g) && 0 <= Used(s.totals, g) <= LargestCap(s.matches, g)
  {
    hide HitOf, Times, AddMatch, InGroup;
    if rules != [] {
      var init, rule := rules[..|rules| - 1], rules[|rules| - 1];
      TotalsStayUnderCaps(init, c, g);
      if HitOf(rule, c).value.Some? {
        var h := HitOf(rule, c).value.value;
        HitIsTimes(rule, c);
        AddMatchAppends(RunRules(init, c).value, rule, h);
        CapBounds(RunRules(init, c).value, rule, h, g);
      }
    }
  }

  lemma CapBounds(s: Loop, rule: Rule, h: Hit, g: string)
    requires 0 <= Used(s.totals, g) <= LargestCap(s.matches, g) && h.effective == Times(rule.points, h.multiplier)
    ensures var t := AddMatch(s, rule, h.multiplier, h.effective, h.observedAt); 0 <= Used(t.totals, g) <= LargestCap(t.matches, g)
  {
    hide Times;
    AddMatchAppends(s, rule, h);
  }

  ghost predicate SharedCap(rules: seq<Rule>, g: string, cap: Milli) {
    cap >= 0 && forall i :: 0 <= i < |rules| && rules[i].groupKey == g && rules[i].groupCap.Some? ==> rules[i].groupCap.value == cap
  }

  /** When all capped rules of a group share a cap, the total is the smaller of cap and points earned. */
  lemma {:induction false} SharedCapIsMinimum(rules: seq<Rule>, c: Context, g: string, cap: Milli)
    requires RunRules(rules, c).Ok? && SharedCap(rules, g, cap)
    ensures var s := RunRules(rules, c).value; Used(s.totals, g) == Min(cap, Earned(s.matches, g)) && Earned(s.matches, g) >= 0
  {
    hide HitOf, Times, AddMatch;
    if rules != [] {
      var init, rule := rules[..|rules| - 1], rules[|rules| - 1];
      assert forall i :: 0 <= i < |init| ==> init[i] == rules[i];
      SharedCapIsMinimum(init, c, g, cap);
      if HitOf(rule, c).value.Some? {
        HitIsTimes(rule, c);
        AddMatchAppends(RunRules(init, c).value, rule, HitOf(rule, c).value.value);
      }
    }
  }

  // What one rule earns in a group, whatever came before it.
  function EarnedBy(rule: Rule, c: Context, g: string): Milli {
    match HitOf(rule, c)
    case Ok(Some(h)) => if Capped(rule, h.effective) && rule.groupKey == g then h.effective else 0
    case _ => 0
  }

  function EarnedByEach(rules: seq<Rule>, c: Context, g: string): (r: seq<Milli>)
    ensures |r| == |rules| && forall i :: 0 <= i < |r| ==> r[i] == EarnedBy(rules[i], c, g)
  {
    seq(|rules|, i requires 0 <= i < |rules| => EarnedBy(rules[i], c, g))
  }

  lemma {:induction false} EarnedIsASum(rules: seq<Rule>, c: Context, g: string)
    requires RunRules(rules, c).Ok?
    ensures Earned(RunRules(rules, c).value.matches, g) == Sum(EarnedByEach(rules, c, g))
  {
    hide HitOf, Times, AddMatch, EarnedByEach;
    if rules == [] {
      assert EarnedByEach(rules, c, g) == [];
    } else {
      var init, rule := rules[..|rules| - 1], rules[|rules| - 1];
      EarnedIsASum(init, c, g);
      assert EarnedByEach(rules, c, g) == EarnedByEach(init, c, g) + [EarnedBy(rule, c, g)];
      SumLast(EarnedByEach(init, c, g), EarnedBy(rule, c, g));
      if HitOf(rule, c).value.Some? {
        HitIsTimes(rule, c);
        AddMatchAppends(RunRules(init, c).value, rule, HitOf(rule, c).value.value);
      }
    }
  }

  lemma {:induction false} EachPermute(rules: seq<Rule>, others: seq<Rule>, c: Context, g: string)
    requires multiset(rules) == multiset(others)
    ensures multiset(EarnedByEach(rules, c, g)) == multiset(EarnedByEach(others, c, g))
  {
    hide EarnedBy;
    var f := (rs: seq<Rule>) => EarnedByEach(rs, c, g);
    forall a, b ensures f(a + b) == f(a) + f(b) {
    }
    ElementwisePermute(f, rules, others);
  }

  /** The loop succeeds exactly when every rule by itself evaluates, finds its signal types and decays. */
  lemma {:induction false} LoopSucceedsExactly(rules: seq<Rule>, c: Context)
    ensures RunRules(rules, c).Ok? <==> forall i :: 0 <= i < |rules| ==> HitOf(rules[i], c).Ok?
  {
    hide HitOf, AddMatch;
    if rules != [] {
      var init := rules[..|rules| - 1];
      LoopSucceedsExactly(init, c);
      assert forall i :: 0 <= i < |init| ==> init[i] == rules[i];
    }
  }

  lemma LoopSucceedsPermuted(rules: seq<Rule>, others: seq<Rule>, c: Context)
    requires multiset(rules) == multiset(others) && RunRules(rules, c).Ok?
    ensures RunRules(others, c).Ok?
  {
    hide HitOf, RunRules;
    SameMembers(rules, others);
    LoopSucceedsExactly(rules, c);
    LoopSucceedsExactly(others, c);
    forall i | 0 <= i < |others| ensures HitOf(others[i], c).Ok? {
      assert others[i] in rules;
      var j :| 0 <= j < |rules| && rules[j] == others[i];
    }
  }

  /** With a shared cap the order of the rules matters neither to success nor to a group's total. */
  lemma SharedCapIgnoresOrder(rules: seq<Rule>, others: seq<Rule>, c: Context, g: string, cap: Milli)
    requires multiset(rules) == multiset(others) && SharedCap(rules, g, cap) && RunRules(rules, c).Ok?
    ensures RunRules(others, c).Ok?
    ensures Used(RunRules(rules, c).value.totals, g) == Used(RunRules(others, c).value.totals, g)
  {
    hide RunRules, EarnedByEach;
    SameMembers(rules, others);
    forall i | 0 <= i < |others| && others[i].groupKey == g && others[i].groupCap.Some? ensures others[i].groupCap.value == cap {
      assert others[i] in rules;
      var j :| 0 <= j < |rules| && rules[j] == others[i];
    }
    LoopSucceedsPermuted(rules, others, c);
    SharedCapIsMinimum(rules, c, g, cap);
    SharedCapIsMinimum(others, c, g, cap);
    EarnedIsASum(rules, c, g);
    EarnedIsASum(others, c, g);
    EachPermute(rules, others, c, g);
    SumPermute(EarnedByEach(rules, c, g), EarnedByEach(others, c, g));
  }
}
