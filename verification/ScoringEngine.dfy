/**
 The scoring engine.  Points are integers in thousandths; configured coefficients, multipliers and
 minimums are whatever `Decimal` makes of their text, infinities and NaN included.
 */
module ScoringEngine {
  import opened Basics
  import opened Numbers
  import opened Ordering
  import JsonText
  import opened Conditions
  import opened Rounding

  type Time = int

  const DAY: int := 86400

  // PositiveSmallIntegerField
  type Order = n: nat | n <= 32767

  // DecimalField(max_digits=7, decimal_places=3)
  type Points = p: Milli | -10000000 < p < 10000000

  // CharField(max_length=16)
  type Critical = s: string | |s| <= 16

  // CharField(max_length=32) of the stored classification
  const CLASSIFICATION_WIDTH: nat := 32

  datatype Bucket = Bucket(maxDays: Option<int>, multiplier: Number)

  datatype Rule = Rule(
    key: string, order: Order, dimension: string, condition: JsonText.Json, points: Points,
    decays: bool, curve: seq<Bucket>, critical: Critical, groupKey: string, groupCap: Option<Milli>, active: bool)

  datatype Term = Term(name: string, coefficient: Number)

  // Minimums are in points.
  datatype Threshold = Threshold(min: Number, classification: string)

  datatype Target = Industry | Partner

  datatype RuleSet = RuleSet(
    target: Target, formula: seq<Term>, thresholds: seq<Threshold>, tieOrder: seq<string>, rules: seq<Rule>)

  datatype Signal = Signal(id: nat, signalType: string, observedAt: Time, expiresAt: Option<Time>, active: bool)

  // texts: the scalar fields; cnaes: primary first, as the query orders them.
  datatype Company = Company(target: Target, texts: map<string, string>, cnaes: seq<string>)

  const DIMENSIONS: set<string> :=
    {"ICP", "MES", "CMMS", "PULSE", "INTENT", "PARTNER_FIT", "CHANNEL", "ACTIVITY", "CONFLICT"}

  const PRODUCTS: seq<string> := ["MES", "CMMS", "PULSE"]

  const DEFAULT_CURVE: seq<Bucket> :=
    [Bucket(Some(30), Finite(1.0)), Bucket(Some(60), Finite(0.8)), Bucket(Some(90), Finite(0.6)),
     Bucket(Some(180), Finite(0.3)), Bucket(None, Finite(0.1))]

  // -------------------------------------------------------------------------- signals

  function TypesOf(ss: seq<Signal>): set<string> {
    set i | 0 <= i < |ss| :: ss[i].signalType
  }

  predicate IsRelevant(s: Signal, types: set<string>) {
    s.signalType in types
  }

  // The latest observation among the signals of the given types.
  function Latest(ss: seq<Signal>, types: set<string>): (t: Option<Time>)
    ensures t.None? <==> forall s :: s in ss ==> !IsRelevant(s, types)
    ensures t.Some? ==> exists s :: s in ss && IsRelevant(s, types) && s.observedAt == t.value
    ensures t.Some? ==> forall s :: s in ss && IsRelevant(s, types) ==> s.observedAt <= t.value
  {
    if ss == [] then None
    else
      var rest := Latest(ss[1..], types);
      assert ss == [ss[0]] + ss[1..];
      if !IsRelevant(ss[0], types) then rest
      else
        assert ss[0] in ss;
        if rest.None? || rest.value <= ss[0].observedAt then Some(ss[0].observedAt) else rest
  }

  function TypesInOrder(ss: seq<Signal>): (ts: seq<string>)
    ensures |ts| == |ss| && forall i :: 0 <= i < |ss| ==> ts[i] == ss[i].signalType
  {
    seq(|ss|, i requires 0 <= i < |ss| => ss[i].signalType)
  }

  // The text of a set of strings depends on the order they were added in: show is given the rows' order.
  function FactsOf(c: Company, rows: seq<Signal>, show: seq<string> -> string): Facts {
    Facts(c.texts["primary_cnae" := if c.cnaes == [] then "" else c.cnaes[0]], c.cnaes, TypesOf(rows), show(TypesInOrder(rows)))
  }

  // ---------------------------------------------------------------------------- decay

  function AgeDays(observedAt: Time, asOf: Time): nat {
    Max(0, asOf / DAY - observedAt / DAY)
  }

  // The first bucket that covers the age; ZERO when none does.
  function Lookup(curve: seq<Bucket>, age: nat): Result<real, Fault> {
    if curve == [] then Ok(0.0)
    else if curve[0].maxDays.None? || age <= curve[0].maxDays.value then
      match curve[0].multiplier
      case Finite(m) => Ok(m)
      case Malformed => Err(Misconfigured)
      case _ => Err(TypeFault) // the multiplication or the rounding that follows raises
    else Lookup(curve[1..], age)
  }

  function CurveOf(rule: Rule): seq<Bucket> {
    if rule.curve == [] then DEFAULT_CURVE else rule.curve
  }

  // `decay_multiplier`
  function Multiplier(rule: Rule, observedAt: Option<Time>, asOf: Time): Result<real, Fault> {
    if !rule.decays || observedAt.None? then Ok(1.0)
    else Lookup(CurveOf(rule), AgeDays(observedAt.value, asOf))
  }

  // --------------------------------------------------------------------- the rule loop

  datatype Context = Context(facts: Facts, signals: seq<Signal>, asOf: Time, regex: Regex)

  datatype Matched = Matched(rule: Rule, multiplier: real, effective: Milli, observedAt: Option<Time>)

  datatype Loop = Loop(matches: seq<Matched>, totals: map<string, Milli>, critical: Critical)

  predicate Capped(rule: Rule, effective: Milli) {
    rule.groupKey != "" && rule.groupCap.Some? && effective > 0
  }

  function Used(totals: map<string, Milli>, group: string): Milli {
    if group in totals then totals[group] else 0
  }

  // What a group cap leaves of the points.
  function UnderCap(effective: Milli, cap: Milli, used: Milli): Milli {
    Max(0, Min(effective, cap - used))
  }

  function AddMatch(s: Loop, rule: Rule, m: real, effective: Milli, observedAt: Option<Time>): Loop {
    var critical := if rule.critical != "" then rule.critical else s.critical;
    if Capped(rule, effective) then
      var used := Used(s.totals, rule.groupKey);
      var kept := UnderCap(effective, rule.groupCap.value, used);
      Loop(s.matches + [Matched(rule, m, kept, observedAt)], s.totals[rule.groupKey := used + kept], critical)
    else Loop(s.matches + [Matched(rule, m, effective, observedAt)], s.totals, critical)
  }

  // What a rule yields before any cap, whatever came before it; None when it does not match.
  datatype Hit = Hit(multiplier: real, effective: Milli, observedAt: Option<Time>)

  function Decay(rule: Rule, observedAt: Option<Time>, asOf: Time): Result<Option<Hit>, Fault> {
    match Multiplier(rule, observedAt, asOf)
    case Err(e) => Err(e)
    case Ok(m) =>
      match Quantized(rule.points, m)
      case None => Err(TypeFault)
      case Some(effective) => Ok(Some(Hit(m, effective, observedAt)))
  }

  function HitOf(rule: Rule, c: Context): Result<Option<Hit>, Fault> {
    match Evaluate(rule.condition, c.facts, c.regex, 0)
    case Err(e) => Err(e)
    case Ok(false) => Ok(None)
    case Ok(true) =>
      match SignalTypes(rule.condition)
      case Err(e) => Err(e)
      case Ok(types) => Decay(rule, Latest(c.signals, types), c.asOf)
  }

  function Step(s: Loop, rule: Rule, c: Context): Result<Loop, Fault> {
    match HitOf(rule, c)
    case Err(e) => Err(e)
    case Ok(None) => Ok(s)
    case Ok(Some(h)) => Ok(AddMatch(s, rule, h.multiplier, h.effective, h.observedAt))
  }

  function RunRules(rules: seq<Rule>, c: Context): Result<Loop, Fault> {
    if rules == [] then Ok(Loop([], map[], ""))
    else
      match RunRules(rules[..|rules| - 1], c)
      case Err(e) => Err(e)
      case Ok(s) => Step(s, rules[|rules| - 1], c)
  }

  // The active rules by (order, key); an order is a character below the surrogates.
  function SortKey(rule: Rule): string {
    [rule.order as char] + rule.key
  }

  function ActiveKeyed(rules: seq<Rule>): seq<Keyed<Rule>> {
    if rules == [] then []
    else (if rules[0].active then [Keyed(SortKey(rules[0]), rules[0])] else []) + ActiveKeyed(rules[1..])
  }

  function Unkeyed(xs: seq<Keyed<Rule>>): (rules: seq<Rule>)
    ensures |rules| == |xs| && forall i :: 0 <= i < |xs| ==> rules[i] == xs[i].value
  {
    if xs == [] then [] else [xs[0].value] + Unkeyed(xs[1..])
  }

  function InOrder(rules: seq<Rule>): seq<Rule> {
    Unkeyed(Sort(ActiveKeyed(rules)))
  }

  // ------------------------------------------------------------ dimensions and products

  function Raw(matches: seq<Matched>, dimension: string): Milli {
    if matches == [] then 0
    else Raw(matches[..|matches| - 1], dimension)
         + (if matches[|matches| - 1].rule.dimension == dimension then matches[|matches| - 1].effective else 0)
  }

  predicate KnownDimensions(matches: seq<Matched>) {
    forall i :: 0 <= i < |matches| ==> matches[i].rule.dimension in DIMENSIONS
  }

  function Dimensions(matches: seq<Matched>): (d: map<string, Milli>)
    ensures d.Keys == DIMENSIONS
  {
    map name | name in DIMENSIONS :: Clamp(Raw(matches, name))
  }

  function At(dims: map<string, Milli>, name: string): Milli {
    if name in dims then dims[name] else 0
  }

  function BestValue(dims: map<string, Milli>): Milli {
    Max(Max(At(dims, "MES"), At(dims, "CMMS")), At(dims, "PULSE"))
  }

  function BestOf(target: Target, dims: map<string, Milli>): Milli {
    if target == Industry then BestValue(dims) else 0
  }

  function Tied(order: seq<string>, dims: map<string, Milli>): (r: seq<string>)
    ensures forall p :: p in r <==> p in order && p in PRODUCTS && At(dims, p) == BestValue(dims)
  {
    if order == [] then []
    else
      var rest := Tied(order[1..], dims);
      assert order == [order[0]] + order[1..];
      (if order[0] in PRODUCTS && At(dims, order[0]) == BestValue(dims) then [order[0]] else []) + rest
  }

  function TiedProducts(order: seq<string>, dims: map<string, Milli>): (r: seq<string>)
    ensures r != []
  {
    assert "MES" in PRODUCTS && "CMMS" in PRODUCTS && "PULSE" in PRODUCTS;
    var byOrder := Tied(order, dims);
    var all := Tied(PRODUCTS, dims);
    assert "MES" in all || "CMMS" in all || "PULSE" in all;
    if byOrder != [] then byOrder else all
  }

  // -------------------------------------------------------------------------- priority

  function FormulaValue(name: string, dims: map<string, Milli>, best: Milli): Milli {
    if name == "BEST_PRODUCT" then best else At(dims, name)
  }

  datatype Weighted = Weighted(name: string, score: Milli, coefficient: real, weighted: Milli)

  function WeightedTerm(t: Term, dims: map<string, Milli>, best: Milli): Result<Weighted, Fault> {
    var value := FormulaValue(t.name, dims, best);
    match t.coefficient
    case Malformed => Err(Misconfigured)
    case Finite(c) => (match Quantized(value, c) case Some(w) => Ok(Weighted(t.name, value, c, w)) case None => Err(TypeFault))
    case _ => Err(TypeFault)
  }

  function Detail(formula: seq<Term>, dims: map<string, Milli>, best: Milli): (r: Result<seq<Weighted>, Fault>)
    ensures r.Ok? ==> |r.value| == |formula|
                      && forall i :: 0 <= i < |formula| ==> WeightedTerm(formula[i], dims, best) == Ok(r.value[i])
  {
    if formula == [] then Ok([])
    else
      match Detail(formula[..|formula| - 1], dims, best)
      case Err(e) => Err(e)
      case Ok(ws) =>
        match WeightedTerm(formula[|formula| - 1], dims, best)
        case Err(e) => Err(e)
        case Ok(w) => Ok(ws + [w])
  }

  function WeightsOf(detail: seq<Weighted>): (r: seq<Milli>)
    ensures |r| == |detail| && forall i :: 0 <= i < |r| ==> r[i] == detail[i].weighted
  {
    seq(|detail|, i requires 0 <= i < |detail| => detail[i].weighted)
  }

  function Priority(detail: seq<Weighted>): Milli {
    Clamp(Sum(WeightsOf(detail)))
  }

  // -------------------------------------------------------------------- classification

  // Thousandths of a point against a minimum in points.
  predicate Reaches(priority: Milli, min: Number) {
    match min
    case Finite(m) => priority as real >= 1000.0 * m
    case Infinite(negative) => negative
    case _ => false
  }

  predicate AllComparable(ts: seq<Threshold>) {
    forall i :: 0 <= i < |ts| ==> ts[i].min.Comparable()
  }

  function InsertThreshold(t: Threshold, ts: seq<Threshold>): (r: seq<Threshold>)
    requires t.min.Comparable() && AllComparable(ts)
    ensures AllComparable(r) && multiset(r) == multiset(ts) + multiset{t}
  {
    if ts == [] || AtMost(ts[0].min, t.min) then [t] + ts
    else
      assert ts == [ts[0]] + ts[1..];
      [ts[0]] + InsertThreshold(t, ts[1..])
  }

  // Highest minimum first; equal minimums keep their order.
  function SortThresholds(ts: seq<Threshold>): (r: seq<Threshold>)
    requires AllComparable(ts)
    ensures AllComparable(r) && multiset(r) == multiset(ts)
  {
    if ts == [] then []
    else
      assert ts == [ts[0]] + ts[1..];
      InsertThreshold(ts[0], SortThresholds(ts[1..]))
  }

  ghost predicate Descending(ts: seq<Threshold>) {
    forall i, j :: 0 <= i < j < |ts| ==> AtMost(ts[j].min, ts[i].min)
  }

  lemma {:induction false} InsertDescends(t: Threshold, ts: seq<Threshold>)
    requires t.min.Comparable() && AllComparable(ts) && Descending(ts)
    ensures Descending(InsertThreshold(t, ts))
  {
    if ts == [] || AtMost(ts[0].min, t.min) {
    } else {
      InsertDescends(t, ts[1..]);
      var rest := InsertThreshold(t, ts[1..]);
      forall j | 0 <= j < |rest| ensures AtMost(rest[j].min, ts[0].min) {
        assert rest[j] in multiset(rest);
        assert rest[j] == t || rest[j] in ts[1..];
      }
    }
  }

  lemma {:induction false} SortDescends(ts: seq<Threshold>)
    requires AllComparable(ts)
    ensures Descending(SortThresholds(ts))
  {
    if ts != [] {
      SortDescends(ts[1..]);
      InsertDescends(ts[0], SortThresholds(ts[1..]));
    }
  }

  function FirstReached(ts: seq<Threshold>, priority: Milli): Result<string, Fault> {
    if ts == [] then Err(Misconfigured)
    else if Reaches(priority, ts[0].min) then Ok(ts[0].classification)
    else FirstReached(ts[1..], priority)
  }

  // `_classification`: all minimums are converted before any two are compared.
  function Classify(ts: seq<Threshold>, priority: Milli): Result<string, Fault> {
    if exists i :: 0 <= i < |ts| && ts[i].min.Malformed? then Err(Misconfigured)
    else if !AllComparable(ts) then Err(TypeFault)
    else FirstReached(SortThresholds(ts), priority)
  }

  // -------------------------------------------------------------------------- the score

  datatype Snapshot = Snapshot(
    dimensions: map<string, Milli>, priority: Milli, classification: string,
    bestProduct: string, tiedProducts: seq<string>, formulaDetail: seq<Weighted>, contributions: seq<Matched>)

  function Grade(rs: RuleSet, critical: string, priority: Milli): Result<string, Fault> {
    match if critical != "" then Ok(critical) else Classify(rs.thresholds, priority)
    case Err(e) => Err(e)
    case Ok(grade) => if |grade| > CLASSIFICATION_WIDTH then Err(Refused) else Ok(grade)
  }

  function Outcome(rs: RuleSet, s: Loop): Result<Snapshot, Fault> {
    if !KnownDimensions(s.matches) then Err(TypeFault)
    else
      var dims := Dimensions(s.matches);
      var best := BestOf(rs.target, dims);
      var tied := if rs.target == Industry then TiedProducts(rs.tieOrder, dims) else [];
      match Detail(rs.formula, dims, best)
      case Err(e) => Err(e)
      case Ok(detail) =>
        match Grade(rs, s.critical, Priority(detail))
        case Err(e) => Err(e)
        case Ok(grade) =>
          Ok(Snapshot(dims, Priority(detail), grade, if tied == [] then "" else tied[0], tied, detail, s.matches))
  }

  function ContextOf(c: Company, rows: seq<Signal>, asOf: Time, regex: Regex, show: seq<string> -> string): Context {
    Context(FactsOf(c, rows, show), rows, asOf, regex)
  }

  /** `calculate_score` as a function of the rows its queries return. */
  function Score(c: Company, rs: RuleSet, rows: seq<Signal>, asOf: Time, regex: Regex, show: seq<string> -> string)
    : Result<Snapshot, Fault>
  {
    if rs.target != c.target then Err(Misconfigured)
    else
      match RunRules(InOrder(rs.rules), ContextOf(c, rows, asOf, regex, show))
      case Err(e) => Err(e)
      case Ok(s) => Outcome(rs, s)
  }

  datatype SetStatus = Draft | Published | Retired

  // Published sets score; a draft only where the caller allows it.
  predicate Usable(status: SetStatus, allowDraft: bool) {
    status == Published || (allowDraft && status == Draft)
  }
}
