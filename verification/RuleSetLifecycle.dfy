/**
 Cloning, editing, publishing and simulating rule sets.  An edit is one atomic step; edits made
 through the administration site are not part of the step relation.
 */
module RuleSetLifecycle {
  import opened Basics
  import opened Numbers
  import JsonText
  import opened Conditions
  import opened ScoringEngine
  import opened ScoreMeaning
  import opened ScoreCalculation
  import opened RuleSetValidation
  import opened Rounding
  import opened ScoreGuarantees

  type Id = nat

  datatype SetRow = SetRow(version: nat, status: SetStatus, active: bool, content: RuleSet)

  type Sets = map<Id, SetRow>

  datatype Refusal = NotStaff | NotADraft | NoActiveSet | Invalid(problems: seq<Problem>) | Raised(fault: Fault)

  // --------------------------------------------------------------------- the operations

  function Versions(sets: Sets, target: Target): set<nat> {
    set id | id in sets && sets[id].content.target == target :: sets[id].version
  }

  lemma {:induction false} GreatestExists(s: set<nat>) returns (m: nat)
    requires s != {}
    ensures m in s && forall y :: y in s ==> y <= m
    decreases |s|
  {
    var x :| x in s;
    var rest := s - {x};
    assert forall y :: y in s ==> y == x || y in rest;
    if rest == {} {
      m := x;
    } else {
      var n := GreatestExists(rest);
      m := if x >= n then x else n;
    }
  }

  // `aggregate(Max("version")) or 0`
  function MaxVersion(versions: set<nat>): (m: nat)
    ensures forall v :: v in versions ==> v <= m
    ensures m in versions || (m == 0 && versions == {})
  {
    if versions == {} then 0
    else
      assert exists m :: m in versions && forall y :: y in versions ==> y <= m by {
        var g := GreatestExists(versions);
      }
      var m :| m in versions && forall y :: y in versions ==> y <= m;
      m
  }

  predicate IsDraftOf(sets: Sets, id: Id, target: Target) {
    id in sets && sets[id].content.target == target && sets[id].status == Draft
  }

  predicate IsActiveOf(sets: Sets, id: Id, target: Target) {
    id in sets && sets[id].content.target == target && sets[id].active && sets[id].status == Published
  }

  function NewDraft(sets: Sets, source: RuleSet): SetRow {
    SetRow(MaxVersion(Versions(sets, source.target)) + 1, Draft, false, source)
  }

  // Every active set of the target retires, then the draft goes live.
  function Publish(sets: Sets, id: Id): Sets
    requires id in sets
  {
    map k | k in sets ::
      if k == id then sets[k].(status := Published, active := true)
      else if sets[k].content.target == sets[id].content.target && sets[k].active
      then sets[k].(status := Retired, active := false)
      else sets[k]
  }

  // What publishing leaves, row by row.
  ghost predicate Publishes(sets: Sets, id: Id, after: Sets)
    requires id in sets
  {
    && after.Keys == sets.Keys
    && after[id] == sets[id].(status := Published, active := true)
    && forall k :: k in sets && k != id ==>
         after[k] == if sets[k].active && sets[k].content.target == sets[id].content.target
                     then sets[k].(status := Retired, active := false) else sets[k]
  }

  lemma PublishesIsPublish(sets: Sets, id: Id, after: Sets)
    requires id in sets && Publishes(sets, id, after)
    ensures after == Publish(sets, id)
  {
  }

  function Edit(sets: Sets, id: Id, content: RuleSet): Sets
    requires id in sets
  {
    sets[id := sets[id].(content := content)]
  }

  // The whole content of a live set of the target, one version above every set of the target.
  ghost predicate CopiesActive(sets: Sets, row: SetRow, target: Target) {
    && (exists id :: id in sets && sets[id].active && sets[id].status == Published && sets[id].content.target == target
                     && row.content == sets[id].content)
    && (forall id :: id in sets && sets[id].content.target == target ==> sets[id].version < row.version)
    && (exists id :: id in sets && sets[id].content.target == target && row.version == sets[id].version + 1)
  }

  lemma DraftCopies(sets: Sets, active: Id, target: Target)
    requires active in sets && IsActiveOf(sets, active, target)
    ensures CopiesActive(sets, NewDraft(sets, sets[active].content), target)
  {
    hide MaxVersion;
    var row := NewDraft(sets, sets[active].content);
    forall id | id in sets && sets[id].content.target == target ensures sets[id].version < row.version {
      assert sets[id].version in Versions(sets, target);
    }
    assert sets[active].version in Versions(sets, target);
    var id :| id in sets && sets[id].content.target == target && sets[id].version == MaxVersion(Versions(sets, target));
    assert row.version == sets[id].version + 1;
  }

  class RuleSetStore {
    var sets: Sets

    constructor ()
      ensures sets == Seeds()
    {
      sets := Seeds();
    }

    /** `clone_active_rule_set`: the draft there is, or a copy of the active set one version up. */
    method CloneActive(target: Target, staff: bool, newId: Id, ghost regex: Regex) returns (r: Result<(Id, bool), Refusal>)
      requires newId !in sets
      modifies this
      ensures !staff <==> r == Err(NotStaff)
      ensures r.Err? ==> sets == old(sets)
      ensures r.Ok? && !r.value.1 ==> sets == old(sets) && IsDraftOf(sets, r.value.0, target)
      ensures r.Ok? && r.value.1 ==> r.value.0 == newId && (forall id :: !IsDraftOf(old(sets), id, target))
      ensures r.Ok? && r.value.1 ==>
        exists id :: IsActiveOf(old(sets), id, target) && sets == old(sets)[newId := NewDraft(old(sets), old(sets)[id].content)]
      ensures Next(old(sets), Clone(target, staff, newId), sets, regex)
      ensures r.Ok? && r.value.1 ==>
        && newId in sets && sets == old(sets)[newId := sets[newId]]
        && sets[newId].status == Draft && !sets[newId].active && CopiesActive(old(sets), sets[newId], target)
      ensures r == Err(NoActiveSet) <==> staff && (forall id :: !IsDraftOf(old(sets), id, target) && !IsActiveOf(old(sets), id, target))
    {
      if !staff {
        return Err(NotStaff);
      }
      if exists id :: id in sets && IsDraftOf(sets, id, target) {
        var draft :| draft in sets && IsDraftOf(sets, draft, target);
        return Ok((draft, false));
      }
      if !(exists id :: id in sets && IsActiveOf(sets, id, target)) {
        return Err(NoActiveSet);
      }
      var active :| active in sets && IsActiveOf(sets, active, target);
      DraftCopies(sets, active, target);
      var version := MaxVersion(Versions(sets, target)) + 1;
      var content := sets[active].content;
      sets := sets[newId := SetRow(version, Draft, false,
                                   RuleSet(content.target, content.formula, content.thresholds, content.tieOrder, content.rules))];
      return Ok((newId, true));
    }

    /** Saving a draft's configuration or one of its rules; anything but a draft is not found. */
    method EditDraft(id: Id, content: RuleSet, ghost regex: Regex) returns (ok: bool)
      requires id in sets && content.target == sets[id].content.target
      modifies this
      ensures ok <==> old(sets)[id].status == Draft
      ensures Next(old(sets), Save(id, content), sets, regex)
      ensures sets == if ok then Edit(old(sets), id, content) else old(sets)
      ensures ok ==> sets == old(sets)[id := SetRow(old(sets)[id].version, Draft, old(sets)[id].active, content)]
    {
      if sets[id].status != Draft {
        return false;
      }
      sets := sets[id := sets[id].(content := content)];
      return true;
    }

    /** `publish_rule_set` */
    method PublishDraft(id: Id, staff: bool, regex: Regex) returns (r: Result<(), Refusal>)
      requires id in sets
      modifies this
      ensures r.Ok? <==> staff && old(sets)[id].status == Draft && Valid(old(sets)[id].content, regex)
      ensures r == Err(NotStaff) <==> !staff
      ensures r == Err(NotADraft) <==> staff && old(sets)[id].status != Draft
      ensures sets == if r.Ok? then Publish(old(sets), id) else old(sets)
      ensures r.Ok? ==> Publishes(old(sets), id, sets)
      ensures Next(old(sets), Promote(id, staff), sets, regex)
    {
      hide Valid, Publish;
      if !staff {
        return Err(NotStaff);
      }
      if sets[id].status != Draft {
        return Err(NotADraft);
      }
      var problems := ValidateRuleSet(sets[id].content, regex);
      if problems.Err? {
        return Err(Raised(problems.error));
      }
      if problems.value != [] {
        return Err(Invalid(problems.value));
      }
      var target := sets[id].content.target;
      ghost var before := sets;
      sets := map k | k in sets ::
        if sets[k].content.target == target && sets[k].active then sets[k].(status := Retired, active := false) else sets[k];
      sets := sets[id := sets[id].(status := Published, active := true)];
      PublishesIsPublish(before, id, sets);
      return Ok(());
    }

    /** `simulate_rule_set`: the score a draft would give; the transaction is rolled back. */
    method Simulate(id: Id, store: SnapshotStore, company: Company, rows: seq<Signal>, asOf: Time, regex: Regex,
                    show: seq<string> -> string, ghost stored: seq<Signal>)
        returns (r: Result<Snapshot, Refusal>)
      requires id in sets && QueryRows(rows, stored, asOf)
      modifies store
      ensures store.snapshots == old(store.snapshots)
      ensures r.Ok? <==> Valid(sets[id].content, regex) && sets[id].status != Retired
                         && Score(company, sets[id].content, rows, asOf, regex, show).Ok?
      ensures r.Ok? ==> Score(company, sets[id].content, rows, asOf, regex, show) == Ok(r.value)
      ensures r.Ok? ==> SnapshotMeant(r.value, company, sets[id].content, rows, asOf, regex, show)
    {
      hide Score, Valid, SnapshotMeant;
      var problems := ValidateRuleSet(sets[id].content, regex);
      if problems.Err? {
        return Err(Raised(problems.error));
      }
      if problems.value != [] {
        return Err(Invalid(problems.value));
      }
      ValidSetsAreChecked(sets[id].content, regex);
      var savepoint := store.snapshots;
      var score := store.CalculateScore(company, sets[id].content, sets[id].status, true, rows, asOf, regex, show, stored);
      store.snapshots := savepoint;
      match score
      case Ok(snapshot) => return Ok(snapshot);
      case Err(e) => return Err(Raised(e));
    }
  }

  // -------------------------------------------------------------------------- the seeds

  function Texts(ss: seq<string>): (v: JsonText.Json)
    ensures v.Arr? && |v.items| == |ss| && forall i :: 0 <= i < |ss| ==> v.items[i] == JsonText.Str(ss[i])
  {
    JsonText.Arr(seq(|ss|, i requires 0 <= i < |ss| => JsonText.Str(ss[i])))
  }

  function HasAny(types: seq<string>): JsonText.Json {
    Condition("signal_types", "HAS_SIGNAL", Texts(types))
  }

  function SeedRule(key: string, order: Order, dimension: string, condition: JsonText.Json, points: int, decays: bool, critical: Critical): Rule
    requires 0 <= points <= 100
  {
    Rule(key, order, dimension, condition, points * 1000, decays, if decays then DEFAULT_CURVE else [], critical, "", None, true)
  }

  const DIVISIONS: seq<string> :=
    ["10", "11", "12", "13", "14", "15", "16", "17", "18", "19", "20", "21", "22", "23", "24", "25", "26", "27", "28", "29",
     "30", "31", "32", "33"]

  function SeedRules(): seq<Rule> {
    [SeedRule("cnpj-inativo", 10, "ICP", Condition("registration_status", "EQ", JsonText.Str("INACTIVE")), 0, false, "DISQUALIFIED"),
     SeedRule("cadastro-ativo", 20, "ICP", Condition("registration_status", "EQ", JsonText.Str("ACTIVE")), 20, false, ""),
     SeedRule("cnae-industrial", 30, "ICP", Condition("cnaes", "HAS_CNAE_PREFIX", Texts(DIVISIONS)), 30, false, ""),
     SeedRule("sinal-oee-mes", 40, "MES", HasAny(["oee", "mes", "producao"]), 30, true, ""),
     SeedRule("sinal-pcm-cmms", 50, "CMMS", HasAny(["pcm", "manutencao", "cmms"]), 30, true, ""),
     SeedRule("sinal-telemetria-pulse", 60, "PULSE", HasAny(["telemetria", "sensores", "historian"]), 30, true, ""),
     SeedRule("sinal-expansao", 70, "INTENT", HasAny(["expansao", "nova-fabrica", "nova-linha", "contratacao"]), 25, true, "")]
  }

  function SeedThresholds(hot: string, warm: string, cold: string): seq<Threshold> {
    [Threshold(Finite(80.0), hot), Threshold(Finite(65.0), warm), Threshold(Finite(45.0), "WATCH"), Threshold(Finite(0.0), cold)]
  }

  function IndustrySeed(): RuleSet {
    RuleSet(Industry, [Term("ICP", Finite(0.35)), Term("BEST_PRODUCT", Finite(0.35)), Term("INTENT", Finite(0.30))],
            SeedThresholds("HOT", "WARM", "COLD"), ["MES", "CMMS", "PULSE"], SeedRules())
  }

  function PartnerSeed(): RuleSet {
    RuleSet(Partner,
            [Term("PARTNER_FIT", Finite(0.45)), Term("CHANNEL", Finite(0.35)), Term("ACTIVITY", Finite(0.20)), Term("CONFLICT", Finite(-1.00))],
            SeedThresholds("PRIORITY_PARTNER", "WARM_PARTNER", "LOW_PRIORITY"), [], [])
  }

  function Seeds(): Sets {
    map[0 := SetRow(1, Published, true, IndustrySeed()), 1 := SetRow(1, Published, true, PartnerSeed())]
  }

  // ---------------------------------------------------------------------- the invariant

  ghost predicate SameTarget(sets: Sets, a: Id, b: Id) {
    a in sets && b in sets && sets[a].content.target == sets[b].content.target
  }

  ghost predicate HasActive(sets: Sets, target: Target) {
    exists id :: IsActiveOf(sets, id, target)
  }

  ghost predicate OneActive(sets: Sets) {
    forall a, b :: SameTarget(sets, a, b) && sets[a].active && sets[b].active ==> a == b
  }

  ghost predicate OneDraft(sets: Sets) {
    forall a, b :: SameTarget(sets, a, b) && sets[a].status == Draft && sets[b].status == Draft ==> a == b
  }

  ghost predicate DistinctVersions(sets: Sets) {
    forall a, b :: SameTarget(sets, a, b) && sets[a].version == sets[b].version ==> a == b
  }

  // The active set is newer than any other that is not a draft.
  ghost predicate ActiveIsNewest(sets: Sets) {
    forall a, b :: SameTarget(sets, a, b) && sets[a].active && sets[b].status != Draft ==> sets[b].version <= sets[a].version
  }

  // A draft is newer than any other set.
  ghost predicate DraftIsNewest(sets: Sets) {
    forall a, b :: SameTarget(sets, a, b) && sets[a].status == Draft ==> sets[b].version <= sets[a].version
  }

  ghost predicate ActiveIsValid(sets: Sets, regex: Regex) {
    forall a :: a in sets ==> (sets[a].active <==> sets[a].status == Published) && (sets[a].active ==> Valid(sets[a].content, regex))
  }

  ghost predicate Inv(sets: Sets, regex: Regex) {
    && (forall target: Target :: HasActive(sets, target))
    && OneActive(sets) && ActiveIsValid(sets, regex) && OneDraft(sets) && DistinctVersions(sets)
    && ActiveIsNewest(sets) && DraftIsNewest(sets)
  }

  // What never happens to a set that has left the draft state.
  ghost predicate Frozen(before: Sets, after: Sets) {
    forall id :: id in before && before[id].status != Draft ==>
      id in after && after[id].status != Draft && after[id].version == before[id].version && after[id].content == before[id].content
  }

  datatype Event =
    | Clone(target: Target, staff: bool, newId: Id)
    | Save(id: Id, content: RuleSet)
    | Promote(id: Id, staff: bool)
    | Try(id: Id)

  ghost predicate Next(sets: Sets, e: Event, after: Sets, regex: Regex) {
    match e
    case Clone(target, staff, newId) =>
      newId !in sets
      && (after == sets
          || (staff && (forall id :: !IsDraftOf(sets, id, target))
              && exists id :: IsActiveOf(sets, id, target) && after == sets[newId := NewDraft(sets, sets[id].content)]))
    case Save(id, content) =>
      id in sets && content.target == sets[id].content.target
      && after == if sets[id].status == Draft then Edit(sets, id, content) else sets
    case Promote(id, staff) =>
      id in sets
      && after == if staff && sets[id].status == Draft && Valid(sets[id].content, regex) then Publish(sets, id) else sets
    case Try(id) => after == sets
  }

  lemma NewVersionIsHighest(sets: Sets, source: RuleSet, b: Id)
    requires b in sets && sets[b].content.target == source.target
    ensures sets[b].version < NewDraft(sets, source).version
  {
    assert sets[b].version in Versions(sets, source.target);
  }

  lemma CloneKeepsInv(sets: Sets, active: Id, newId: Id, regex: Regex)
    requires Inv(sets, regex) && newId !in sets && active in sets && IsActiveOf(sets, active, sets[active].content.target)
    requires forall id :: !IsDraftOf(sets, id, sets[active].content.target)
    ensures Inv(sets[newId := NewDraft(sets, sets[active].content)], regex)
  {
    hide Valid, MaxVersion, Versions;
    var content := sets[active].content;
    var after := sets[newId := NewDraft(sets, content)];
    forall t: Target ensures HasActive(after, t) {
      assert HasActive(sets, t);
      var id :| IsActiveOf(sets, id, t);
      assert IsActiveOf(after, id, t);
    }
    forall b | b in sets && sets[b].content.target == content.target ensures sets[b].version < after[newId].version {
      NewVersionIsHighest(sets, content, b);
    }
    forall a, b | SameTarget(after, a, b) && a != newId && b != newId ensures SameTarget(sets, a, b) {
    }
    forall a | a in sets && sets[a].content.target == content.target ensures sets[a].status != Draft {
      assert !IsDraftOf(sets, a, content.target);
    }
  }

  lemma EditKeepsInv(sets: Sets, id: Id, content: RuleSet, regex: Regex)
    requires Inv(sets, regex) && id in sets && sets[id].status == Draft && content.target == sets[id].content.target
    ensures Inv(Edit(sets, id, content), regex)
  {
    hide Valid;
    var after := Edit(sets, id, content);
    forall t: Target ensures HasActive(after, t) {
      assert HasActive(sets, t);
      var k :| IsActiveOf(sets, k, t);
      assert IsActiveOf(after, k, t);
    }
    forall a, b ensures SameTarget(after, a, b) <==> SameTarget(sets, a, b) {
    }
  }

  lemma PublishKeepsInv(sets: Sets, id: Id, regex: Regex)
    requires Inv(sets, regex) && id in sets && sets[id].status == Draft && Valid(sets[id].content, regex)
    ensures Inv(Publish(sets, id), regex)
  {
    hide Valid, OneActive, OneDraft, DistinctVersions, ActiveIsNewest, DraftIsNewest, ActiveIsValid, Publish;
    PublishKeepsActive(sets, id, regex);
    PublishKeepsDrafts(sets, id, regex);
    PublishKeepsVersions(sets, id, regex);
  }

  lemma PublishKeepsActive(sets: Sets, id: Id, regex: Regex)
    requires Inv(sets, regex) && id in sets && sets[id].status == Draft && Valid(sets[id].content, regex)
    ensures OneActive(Publish(sets, id)) && ActiveIsValid(Publish(sets, id), regex)
    ensures forall t: Target :: HasActive(Publish(sets, id), t)
  {
    hide Valid, OneDraft, DistinctVersions, ActiveIsNewest, DraftIsNewest;
    var after := Publish(sets, id);
    forall t: Target ensures HasActive(after, t) {
      assert HasActive(sets, t);
      var k :| IsActiveOf(sets, k, t);
      assert IsActiveOf(after, if t == sets[id].content.target then id else k, t);
    }
    forall a, b | SameTarget(after, a, b) && after[a].active && after[b].active ensures a == b {
      assert SameTarget(sets, a, b);
    }
  }

  lemma PublishKeepsDrafts(sets: Sets, id: Id, regex: Regex)
    requires Inv(sets, regex) && id in sets && sets[id].status == Draft
    ensures OneDraft(Publish(sets, id)) && DraftIsNewest(Publish(sets, id)) && DistinctVersions(Publish(sets, id))
  {
    hide Valid, OneActive, ActiveIsValid, ActiveIsNewest;
    forall a, b ensures SameTarget(Publish(sets, id), a, b) <==> SameTarget(sets, a, b) {
    }
  }

  lemma PublishKeepsVersions(sets: Sets, id: Id, regex: Regex)
    requires Inv(sets, regex) && id in sets && sets[id].status == Draft
    ensures ActiveIsNewest(Publish(sets, id))
  {
    hide Valid, OneActive, OneDraft, DistinctVersions;
    var after := Publish(sets, id);
    forall a, b | SameTarget(after, a, b) && after[a].active && after[b].status != Draft ensures after[b].version <= after[a].version {
      assert SameTarget(sets, a, b);
      assert SameTarget(sets, id, b) || a != id;
    }
  }

  lemma NextKeepsInv(sets: Sets, e: Event, after: Sets, regex: Regex)
    requires Inv(sets, regex) && Next(sets, e, after, regex)
    ensures Inv(after, regex) && Frozen(sets, after)
  {
    hide Inv, Valid, NewDraft;
    match e
    case Clone(target, staff, newId) =>
      if after != sets {
        var id :| IsActiveOf(sets, id, target) && after == sets[newId := NewDraft(sets, sets[id].content)];
        CloneKeepsInv(sets, id, newId, regex);
      }
    case Save(id, content) =>
      if sets[id].status == Draft {
        EditKeepsInv(sets, id, content, regex);
      }
    case Promote(id, staff) =>
      if after != sets {
        PublishKeepsInv(sets, id, regex);
      }
    case Try(_) =>
  }

  // ----------------------------------------------------------------- the seeds are valid

  lemma ConditionChecks(field: string, op: string, value: JsonText.Json, regex: Regex)
    requires field in ALLOWED_FIELDS && op in {"EQ", "HAS_CNAE_PREFIX", "HAS_SIGNAL"}
    ensures Check(Condition(field, op, value), regex, 0).Ok?
  {
    hide EntryIn, ItemText;
    LeafIsEntries(field, op, value);
    assert op in COMPARISONS + CONTAINS + OTHERS;
  }

  lemma SeedRuleIsValid(key: string, order: Order, dimension: string, condition: JsonText.Json, points: int, decays: bool,
                        critical: Critical, regex: Regex)
    requires 0 <= points <= 100 && Check(condition, regex, 0).Ok? && dimension in RuleDimensions(Industry)
    ensures ValidRule(SeedRule(key, order, dimension, condition, points, decays, critical), Industry, regex)
  {
    hide Check;
    DefaultCurveIsValid();
  }

  lemma SeedRulesAreValid(regex: Regex)
    ensures ValidRules(SeedRules(), Industry, regex)
  {
    hide Check, ValidRule, ValidCurve, Condition, Texts, SeedRule;
    var rs := SeedRules();
    var status, types := "registration_status", "signal_types";
    ConditionChecks(status, "EQ", JsonText.Str("INACTIVE"), regex);
    ConditionChecks(status, "EQ", JsonText.Str("ACTIVE"), regex);
    ConditionChecks("cnaes", "HAS_CNAE_PREFIX", Texts(DIVISIONS), regex);
    ConditionChecks(types, "HAS_SIGNAL", Texts(["oee", "mes", "producao"]), regex);
    ConditionChecks(types, "HAS_SIGNAL", Texts(["pcm", "manutencao", "cmms"]), regex);
    ConditionChecks(types, "HAS_SIGNAL", Texts(["telemetria", "sensores", "historian"]), regex);
    ConditionChecks(types, "HAS_SIGNAL", Texts(["expansao", "nova-fabrica", "nova-linha", "contratacao"]), regex);
    SeedRuleIsValid("cnpj-inativo", 10, "ICP", Condition(status, "EQ", JsonText.Str("INACTIVE")), 0, false, "DISQUALIFIED", regex);
    SeedRuleIsValid("cadastro-ativo", 20, "ICP", Condition(status, "EQ", JsonText.Str("ACTIVE")), 20, false, "", regex);
    SeedRuleIsValid("cnae-industrial", 30, "ICP", Condition("cnaes", "HAS_CNAE_PREFIX", Texts(DIVISIONS)), 30, false, "", regex);
    SeedRuleIsValid("sinal-oee-mes", 40, "MES", HasAny(["oee", "mes", "producao"]), 30, true, "", regex);
    SeedRuleIsValid("sinal-pcm-cmms", 50, "CMMS", HasAny(["pcm", "manutencao", "cmms"]), 30, true, "", regex);
    SeedRuleIsValid("sinal-telemetria-pulse", 60, "PULSE", HasAny(["telemetria", "sensores", "historian"]), 30, true, "", regex);
    SeedRuleIsValid("sinal-expansao", 70, "INTENT", HasAny(["expansao", "nova-fabrica", "nova-linha", "contratacao"]), 25, true, "", regex);
    forall i | 0 <= i < |rs| ensures ValidRule(rs[i], Industry, regex) {
      assert i == 0 || i == 1 || i == 2 || i == 3 || i == 4 || i == 5 || i == 6;
    }
  }

  lemma SeedThresholdsAreValid(hot: string, warm: string, cold: string)
    requires hot != warm && hot != cold && warm != cold && "WATCH" !in {hot, warm, cold} && "" !in {hot, warm, cold}
    ensures ValidThresholds(SeedThresholds(hot, warm, cold))
  {
    var ts := SeedThresholds(hot, warm, cold);
    assert ts[3].min == Finite(0.0);
  }

  lemma SeedFormulasAreValid()
    ensures ValidFormula(IndustrySeed()) && ValidFormula(PartnerSeed())
  {
    hide SeedRules, SeedThresholds;
    var f := IndustrySeed().formula;
    assert f[..3] == f && f[..3][..2] == f[..2] && f[..2][..1] == f[..1] && f[..1][..0] == [];
    assert PositiveSum(f[..1]) == 0.35 && PositiveSum(f[..2]) == 0.70 && PositiveSum(f) == 1.0;
    assert f[0].name == "ICP" && f[1].name == "BEST_PRODUCT" && f[2].name == "INTENT";
    var g := PartnerSeed().formula;
    assert g[..4] == g && g[..4][..3] == g[..3] && g[..3][..2] == g[..2] && g[..2][..1] == g[..1] && g[..1][..0] == [];
    assert PositiveSum(g[..1]) == 0.45 && PositiveSum(g[..2]) == 0.80 && PositiveSum(g[..3]) == 1.0 && PositiveSum(g) == 1.0;
    assert g[0].name == "PARTNER_FIT" && g[1].name == "CHANNEL" && g[2].name == "ACTIVITY" && g[3].name == "CONFLICT";
  }

  lemma SeedContentsAreValid(regex: Regex)
    ensures Valid(IndustrySeed(), regex) && Valid(PartnerSeed(), regex)
  {
    hide ValidFormula, ValidThresholds, ValidRules, SeedRules, SeedThresholds;
    SeedFormulasAreValid();
    SeedThresholdsAreValid("HOT", "WARM", "COLD");
    SeedThresholdsAreValid("PRIORITY_PARTNER", "WARM_PARTNER", "LOW_PRIORITY");
    SeedRulesAreValid(regex);
    assert ValidRules([], Partner, regex) by { NoRulesAreValid(regex); }
    SeedTieOrder();
  }

  lemma SeedsSatisfyInv(regex: Regex)
    ensures Inv(Seeds(), regex)
  {
    hide Valid, SeedRules, SeedThresholds;
    SeedContentsAreValid(regex);
    forall t: Target ensures HasActive(Seeds(), t) {
      assert IsActiveOf(Seeds(), if t == Industry then 0 else 1, t);
    }
  }

  lemma NoRulesAreValid(regex: Regex)
    ensures ValidRules([], Partner, regex)
  {
  }

  lemma SeedTieOrder()
    ensures ValidTieOrder(IndustrySeed()) && ValidTieOrder(PartnerSeed())
  {
    hide SeedRules, SeedThresholds;
    var order := IndustrySeed().tieOrder;
    assert order[0] == "MES" && order[1] == "CMMS" && order[2] == "PULSE";
  }

  lemma ConditionIsPlain(field: string, op: string, value: JsonText.Json)
    requires op in {"EQ", "HAS_CNAE_PREFIX", "HAS_SIGNAL"} && Scalars(value)
    ensures Plain(Condition(field, op, value)) && NeedsNoNumbers(Condition(field, op, value))
  {
    hide EntryIn, Scalars;
    LeafIsEntries(field, op, value);
  }

  lemma TextsAreScalars(ss: seq<string>)
    ensures Scalars(Texts(ss))
  {
  }

  lemma SeedsFit()
    ensures FormulaFits(IndustrySeed().formula) && FormulaFits(PartnerSeed().formula)
    ensures ClassesFit(IndustrySeed().thresholds) && ClassesFit(PartnerSeed().thresholds)
  {
    hide SeedRules;
    assert Scaled(HUNDRED, 0.35) == 35000.0 && Scaled(HUNDRED, 0.30) == 30000.0 && Scaled(HUNDRED, 0.45) == 45000.0;
    assert Scaled(HUNDRED, 0.20) == 20000.0 && Scaled(HUNDRED, -1.00) == -100000.0;
  }

  /** The seeded rule sets score every company, whatever its data and signals. */
  lemma SeedsScoreEveryCompany(c: Company, rows: seq<Signal>, asOf: Time, regex: Regex, show: seq<string> -> string)
    ensures Score(c, if c.target == Industry then IndustrySeed() else PartnerSeed(), rows, asOf, regex, show).Ok?
  {
    hide Score, Plain, NeedsNoNumbers, Valid, SeedThresholds, Condition, Texts, FormulaFits, ClassesFit;
    var rs := if c.target == Industry then IndustrySeed() else PartnerSeed();
    SeedContentsAreValid(regex);
    SeedsFit();
    var status, types := "registration_status", "signal_types";
    ConditionIsPlain(status, "EQ", JsonText.Str("INACTIVE"));
    ConditionIsPlain(status, "EQ", JsonText.Str("ACTIVE"));
    PlainTexts("cnaes", "HAS_CNAE_PREFIX", DIVISIONS);
    PlainTexts(types, "HAS_SIGNAL", ["oee", "mes", "producao"]);
    PlainTexts(types, "HAS_SIGNAL", ["pcm", "manutencao", "cmms"]);
    PlainTexts(types, "HAS_SIGNAL", ["telemetria", "sensores", "historian"]);
    PlainTexts(types, "HAS_SIGNAL", ["expansao", "nova-fabrica", "nova-linha", "contratacao"]);
    forall i | 0 <= i < |rs.rules| ensures Plain(rs.rules[i].condition) && NeedsNoNumbers(rs.rules[i].condition) {
      assert i == 0 || i == 1 || i == 2 || i == 3 || i == 4 || i == 5 || i == 6;
    }
    PlainSetsScoreEveryCompany(c, rs, rows, asOf, regex, show);
  }

  lemma PlainTexts(field: string, op: string, ss: seq<string>)
    requires op in {"HAS_CNAE_PREFIX", "HAS_SIGNAL"}
    ensures Plain(Condition(field, op, Texts(ss))) && NeedsNoNumbers(Condition(field, op, Texts(ss)))
  {
    TextsAreScalars(ss);
    ConditionIsPlain(field, op, Texts(ss));
  }

  // ------------------------------------------------------------------------ whole runs

  ghost predicate IsRun(states: seq<Sets>, es: seq<Event>, regex: Regex) {
    |states| == |es| + 1 && states[0] == Seeds() && forall i :: 0 <= i < |es| ==> Next(states[i], es[i], states[i + 1], regex)
  }

  /**
   In every state reached from the seeds each target has exactly one active set, it is published,
   valid and has the highest version that is not a draft, and there is at most one draft.
   */
  lemma {:induction false} RunKeepsInv(states: seq<Sets>, es: seq<Event>, regex: Regex, i: nat)
    requires IsRun(states, es, regex) && i < |states|
    ensures Inv(states[i], regex)
  {
    hide Inv, Next, Seeds;
    if i == 0 {
      SeedsSatisfyInv(regex);
    } else {
      RunKeepsInv(states, es, regex, i - 1);
      NextKeepsInv(states[i - 1], es[i - 1], states[i], regex);
    }
  }

  /** Between any two states of a run, no set that is not a draft ever changes its content or version. */
  lemma {:induction false} ContentIsFrozen(states: seq<Sets>, es: seq<Event>, regex: Regex, i: nat, k: nat)
    requires IsRun(states, es, regex) && i <= k < |states|
    ensures Frozen(states[i], states[k])
    decreases k
  {
    hide Inv, Next, Seeds;
    if i < k {
      ContentIsFrozen(states, es, regex, i, k - 1);
      RunKeepsInv(states, es, regex, k - 1);
      NextKeepsInv(states[k - 1], es[k - 1], states[k], regex);
    }
  }

  /** A clone in a run makes a draft with every rule, formula and threshold of the set that was live. */
  lemma CloneKeepsTheRules(states: seq<Sets>, es: seq<Event>, regex: Regex, i: nat, live: Id)
    requires IsRun(states, es, regex) && i < |es| && es[i].Clone? && es[i].newId in states[i + 1]
    requires live in states[i] && states[i][live].active && states[i][live].content.target == es[i].target
    ensures states[i + 1][es[i].newId].content == states[i][live].content
    ensures states[i + 1][es[i].newId].status == Draft && states[i + 1][es[i].newId].version > states[i][live].version
  {
    hide Valid, MaxVersion, Seeds;
    RunKeepsInv(states, es, regex, i);
    assert Next(states[i], es[i], states[i + 1], regex);
    var id :| IsActiveOf(states[i], id, es[i].target) && states[i + 1] == states[i][es[i].newId := NewDraft(states[i], states[i][id].content)];
    assert SameTarget(states[i], id, live);
    NewVersionIsHighest(states[i], states[i][id].content, live);
  }
}
