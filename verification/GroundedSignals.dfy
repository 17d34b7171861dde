/** Which generated signals are active after a detection run, in terms of the texts they rest on. */
module GroundedSignals {
  import opened Basics
  import opened Text
  import opened TermSearch
  import opened Detector
  import opened Detection

  // The keyword has tokens, and they are a contiguous part of the text's tokens.
  ghost predicate HasTerm(keyword: string, text: string) {
    Tokens(keyword) != [] && IsSublist(Tokens(keyword), Tokens(text))
  }

  // ANY: some keyword is there; ALL: every one is, and there is one.
  ghost predicate Carries(text: string, rule: Rule) {
    (exists k :: k in rule.keywords && HasTerm(k, text)) && (rule.matchAll ==> forall k :: k in rule.keywords ==> HasTerm(k, text))
  }

  lemma NormalizedIsHasTerm(keyword: string, text: string)
    ensures Normalized(keyword, Normalize(text)) <==> HasTerm(keyword, text)
  {
    hide Words, Join, BoundarySearch, IsSublist, Lower;
    if Tokens(keyword) == [] {
      NoTokens();
    } else {
      WordsAreNotEmpty(Tokens(keyword));
      BoundarySearchIsTokenSearch(text, keyword);
    }
  }

  lemma NoTokens()
    ensures Join([]) == ""
  {
  }

  lemma TermsCarry(text: string, rule: Rule)
    ensures Terms(text, rule) != [] <==> Carries(text, rule)
  {
    hide Terms, Normalized, HasTerm;
    TermsMatchExactly(text, rule);
    forall k ensures Normalized(k, Normalize(text)) <==> HasTerm(k, text) {
      NormalizedIsHasTerm(k, text);
    }
  }

  // Some field the rule reads on the record carries its terms.
  ghost predicate RecordCarries(record: Record, rule: Rule) {
    exists field :: field in rule.sourceFields && field != "job_title" && field != "job_description"
      && field in record.values && Carries(record.values[field], rule)
  }

  // Title or description, whichever the rule reads, carries its terms.
  ghost predicate PostingCarries(p: Posting, rule: Rule) {
    || ("job_title" in rule.sourceFields && Carries(p.title, rule))
    || ("job_description" in rule.sourceFields && Carries(p.description, rule))
  }

  // The evidence is the record itself, or an active posting it carries.
  ghost predicate Backs(record: Record, rule: Rule, ps: seq<Posting>, e: Evidence) {
    match e
    case OfRecord(id) => id == record.id && RecordCarries(record, rule)
    case OfPosting(f) => exists p :: p in ps && p.active && p.record == record.id && p.fingerprint == f && PostingCarries(p, rule)
  }

  lemma RecordFindsIsCarries(record: Record, rule: Rule)
    ensures RecordFinds(record, rule.sourceFields, rule) <==> RecordCarries(record, rule)
  {
    hide Terms, Carries;
    forall text ensures Terms(text, rule) != [] <==> Carries(text, rule) {
      TermsCarry(text, rule);
    }
    if RecordCarries(record, rule) {
      var field :| field in rule.sourceFields && field != "job_title" && field != "job_description"
        && field in record.values && Carries(record.values[field], rule);
      var i :| 0 <= i < |rule.sourceFields| && rule.sourceFields[i] == field;
      assert RecordTerms(record, field, rule) != [];
    }
  }

  lemma EmptyCarriesNothing(rule: Rule)
    ensures !Carries("", rule)
  {
    hide Tokens;
    assert Tokens("") == [] by { NothingInEmpty(); }
    forall k ensures !HasTerm(k, "") {
      assert forall a, b :: |Around(a, Tokens(k), b)| >= |Tokens(k)|;
    }
  }

  lemma NothingInEmpty()
    ensures Tokens("") == []
  {
  }

  // The text of a posting that a job field stands for.
  function TextOf(p: Posting, field: string): string {
    if field == "job_title" then p.title else p.description
  }

  lemma PostingTermsCarry(p: Posting, field: string, rule: Rule)
    ensures PostingTerms(p, field, rule) != [] <==> Carries(TextOf(p, field), rule)
  {
    hide Terms, Carries;
    TermsCarry(PostingText(p, field), rule);
    EmptyCarriesNothing(rule);
  }

  lemma PostingCarriesIs(p: Posting, rule: Rule)
    ensures PostingCarries(p, rule)
       <==> exists i :: 0 <= i < |rule.sourceFields| && IsJobField(rule.sourceFields[i]) && Carries(TextOf(p, rule.sourceFields[i]), rule)
  {
    hide Carries;
  }

  lemma FoundIsCarried(record: Record, rule: Rule, ps: seq<Posting>, f: string)
    requires RuleFinds(ActiveOf(record.id, ps), rule.sourceFields, rule, f)
    ensures Backs(record, rule, ps, OfPosting(f))
  {
    hide Carries, PostingTerms, TextOf, IsJobField, PostingCarries;
    var active := ActiveOf(record.id, ps);
    var i :| 0 <= i < |rule.sourceFields| && IsJobField(rule.sourceFields[i]) && FieldFinds(active, rule.sourceFields[i], rule, f);
    var j :| 0 <= j < |active| && active[j].fingerprint == f && PostingTerms(active[j], rule.sourceFields[i], rule) != [];
    PostingTermsCarry(active[j], rule.sourceFields[i], rule);
    PostingCarriesIs(active[j], rule);
    assert active[j] in active;
  }

  lemma CarriedIsFound(record: Record, rule: Rule, ps: seq<Posting>, f: string)
    requires Backs(record, rule, ps, OfPosting(f))
    ensures RuleFinds(ActiveOf(record.id, ps), rule.sourceFields, rule, f)
  {
    hide Carries, PostingTerms, TextOf, IsJobField, PostingCarries;
    var active := ActiveOf(record.id, ps);
    var p :| p in ps && p.active && p.record == record.id && p.fingerprint == f && PostingCarries(p, rule);
    PostingCarriesIs(p, rule);
    var i :| 0 <= i < |rule.sourceFields| && IsJobField(rule.sourceFields[i]) && Carries(TextOf(p, rule.sourceFields[i]), rule);
    PostingTermsCarry(p, rule.sourceFields[i], rule);
    var j :| 0 <= j < |active| && active[j] == p;
    assert FieldFinds(active, rule.sourceFields[i], rule, f);
  }

  lemma RuleFindsIsCarries(record: Record, rule: Rule, ps: seq<Posting>, f: string)
    ensures RuleFinds(ActiveOf(record.id, ps), rule.sourceFields, rule, f) <==> Backs(record, rule, ps, OfPosting(f))
  {
    hide RuleFinds, Backs;
    if RuleFinds(ActiveOf(record.id, ps), rule.sourceFields, rule, f) {
      FoundIsCarried(record, rule, ps, f);
    }
    if Backs(record, rule, ps, OfPosting(f)) {
      CarriedIsFound(record, rule, ps, f);
    }
  }

  // Some hit of the rule on the record rests on the evidence.
  ghost predicate HitBy(record: Record, rule: Rule, ps: seq<Posting>, e: Evidence) {
    exists h :: h in HitsOfRule(record, rule, MatchesOf(record, rule, ps)) && EvidenceOf(h) == e
  }

  lemma HitByIsBacks(record: Record, rule: Rule, ps: seq<Posting>, e: Evidence)
    ensures HitBy(record, rule, ps, e) <==> Backs(record, rule, ps, e)
  {
    hide RuleMatches, Backs, RecordCarries, RuleFinds, RecordFinds, OncePerEvidence;
    var ms := MatchesOf(record, rule, ps);
    var hs := HitsOfRule(record, rule, ms);
    match e
    case OfRecord(id) =>
      MatchesAreExact(record, rule, ActiveOf(record.id, ps), "");
      RecordFindsIsCarries(record, rule);
      assert Backs(record, rule, ps, e) <==> id == record.id && RecordCarries(record, rule) by { BacksRecord(record, rule, ps, id); }
      if id == record.id && OnRecord(ms) {
        var i :| 0 <= i < |ms| && ms[i].posting.None?;
        assert hs[i] in hs && EvidenceOf(hs[i]) == e;
      }
    case OfPosting(f) =>
      MatchesAreExact(record, rule, ActiveOf(record.id, ps), f);
      RuleFindsIsCarries(record, rule, ps, f);
      if OnPosting(ms, f) {
        var i :| 0 <= i < |ms| && ms[i].posting.Some? && ms[i].posting.value.fingerprint == f;
        assert hs[i] in hs && EvidenceOf(hs[i]) == e;
      }
  }

  lemma BacksRecord(record: Record, rule: Rule, ps: seq<Posting>, id: nat)
    ensures Backs(record, rule, ps, OfRecord(id)) <==> id == record.id && RecordCarries(record, rule)
  {
  }

  ghost predicate Pair(record: Record, rule: Rule, records: seq<Record>, rules: seq<Rule>) {
    record in records && rule in rules
  }

  lemma {:induction false} RecordHits(record: Record, rules: seq<Rule>, ps: seq<Posting>, h: Hit)
    ensures h in HitsOfRecord(record, rules, ps)
       <==> exists rule :: rule in rules && h in HitsOfRule(record, rule, MatchesOf(record, rule, ps))
  {
    hide MatchesOf, HitsOfRule;
    if rules != [] {
      RecordHits(record, rules[1..], ps, h);
      assert rules == [rules[0]] + rules[1..];
    }
  }

  lemma {:induction false} AllHits(records: seq<Record>, rules: seq<Rule>, ps: seq<Posting>, h: Hit)
    ensures h in HitsOf(records, rules, ps) <==> exists record :: record in records && h in HitsOfRecord(record, rules, ps)
  {
    hide HitsOfRecord;
    if records != [] {
      AllHits(records[1..], rules, ps, h);
      assert records == [records[0]] + records[1..];
      assert HitsOf(records, rules, ps) == HitsOfRecord(records[0], rules, ps) + HitsOf(records[1..], rules, ps);
      if h in HitsOfRecord(records[0], rules, ps) {
        assert records[0] in records;
      } else if h in HitsOf(records[1..], rules, ps) {
        var record :| record in records[1..] && h in HitsOfRecord(record, rules, ps);
        assert record in records;
      } else if record :| record in records && h in HitsOfRecord(record, rules, ps) {
        assert false;
      }
    }
  }

  // A record, a rule of that name and version, and the evidence between them.
  ghost predicate Grounded(records: seq<Record>, rules: seq<Rule>, ps: seq<Posting>, k: SignalKey) {
    exists record, rule :: Pair(record, rule, records, rules)
      && k.signalType == rule.signalType && k.rule == rule.key && k.version == rule.version && Backs(record, rule, ps, k.evidence)
  }

  lemma HitRule(record: Record, rule: Rule, ps: seq<Posting>, h: Hit)
    requires h in HitsOfRule(record, rule, MatchesOf(record, rule, ps))
    ensures h.rule == rule && h.record == record
  {
    hide MatchesOf;
  }

  lemma KeysAreGrounded(records: seq<Record>, rules: seq<Rule>, ps: seq<Posting>, k: SignalKey)
    ensures k in Keys(HitsOf(records, rules, ps)) <==> Grounded(records, rules, ps, k)
  {
    hide HitsOf, HitsOfRecord, HitsOfRule, MatchesOf, Backs, EvidenceOf;
    var hs := HitsOf(records, rules, ps);
    if k in Keys(hs) {
      var i :| 0 <= i < |hs| && KeyOf(hs[i]) == k;
      AllHits(records, rules, ps, hs[i]);
      var record :| record in records && hs[i] in HitsOfRecord(record, rules, ps);
      RecordHits(record, rules, ps, hs[i]);
      var rule :| rule in rules && hs[i] in HitsOfRule(record, rule, MatchesOf(record, rule, ps));
      HitRule(record, rule, ps, hs[i]);
      assert HitBy(record, rule, ps, k.evidence);
      HitByIsBacks(record, rule, ps, k.evidence);
      assert Pair(record, rule, records, rules);
    }
    if Grounded(records, rules, ps, k) {
      var record, rule :| Pair(record, rule, records, rules)
        && k.signalType == rule.signalType && k.rule == rule.key && k.version == rule.version && Backs(record, rule, ps, k.evidence);
      HitByIsBacks(record, rule, ps, k.evidence);
      var h :| h in HitsOfRule(record, rule, MatchesOf(record, rule, ps)) && EvidenceOf(h) == k.evidence;
      HitRule(record, rule, ps, h);
      RecordHits(record, rules, ps, h);
      AllHits(records, rules, ps, h);
      var i :| 0 <= i < |hs| && hs[i] == h;
      assert KeyOf(hs[i]) == k;
    }
  }

  /**
   After a run over a company's records, active rules and refreshed postings, a generated signal is
   active exactly when a record, a rule of its key, version and type, and evidence exist such that
   a field the rule names, of the record or of an active posting it carries, has the rule's terms
   among its tokens.
   */
  lemma ActiveExactlyWhenGrounded(s: Signals, records: seq<Record>, rules: seq<Rule>, ps: seq<Posting>, maxAge: int, k: SignalKey)
    ensures var after := Run(s, HitsOf(records, rules, ps), maxAge);
      (k in after && after[k].active && after[k].detections != map[]) <==> Grounded(records, rules, ps, k)
  {
    hide HitsOf, Run, Keys, Grounded;
    ExactlyTheMatchedAreActive(s, HitsOf(records, rules, ps), maxAge, k);
    KeysAreGrounded(records, rules, ps, k);
  }

  // ------------------------------------------------------------ the rows a run writes

  // The rule's keywords that the text has, as often as the rule lists them.
  ghost predicate AreTermsOf(terms: seq<string>, text: string, rule: Rule) {
    forall k :: multiset(terms)[k] == if HasTerm(k, text) then multiset(rule.keywords)[k] else 0
  }

  lemma TermsAreTerms(text: string, rule: Rule)
    requires Terms(text, rule) != []
    ensures AreTermsOf(Terms(text, rule), text, rule)
  {
    hide HasTerm, Normalized;
    forall k ensures multiset(Terms(text, rule))[k] == if HasTerm(k, text) then multiset(rule.keywords)[k] else 0 {
      FoundInOrder(rule.keywords, [], Normalize(text), k);
      NormalizedIsHasTerm(k, text);
    }
  }

  // The detection names the first job field of the rule whose text carries its terms, and holds those terms.
  ghost predicate PostingDetected(s: Signal, record: Record, rule: Rule, p: Posting) {
    exists i :: 0 <= i < |rule.sourceFields| && (rule.sourceFields[i] == "job_title" || rule.sourceFields[i] == "job_description")
      && (rule.key, rule.version, record.id, rule.sourceFields[i]) in s.detections
      && AreTermsOf(s.detections[(rule.key, rule.version, record.id, rule.sourceFields[i])], TextOf(p, rule.sourceFields[i]), rule)
      && Carries(TextOf(p, rule.sourceFields[i]), rule)
      && forall j :: 0 <= j < i && (rule.sourceFields[j] == "job_title" || rule.sourceFields[j] == "job_description") ==>
           !Carries(TextOf(p, rule.sourceFields[j]), rule)
  }

  ghost predicate CarriedBy(record: Record, field: string, rule: Rule) {
    field in record.values && Carries(record.values[field], rule)
  }

  ghost predicate RecordDetected(s: Signal, record: Record, rule: Rule) {
    exists i :: 0 <= i < |rule.sourceFields| && rule.sourceFields[i] != "job_title" && rule.sourceFields[i] != "job_description"
      && (rule.key, rule.version, record.id, rule.sourceFields[i]) in s.detections
      && CarriedBy(record, rule.sourceFields[i], rule)
      && AreTermsOf(s.detections[(rule.key, rule.version, record.id, rule.sourceFields[i])], record.values[rule.sourceFields[i]], rule)
      && forall j :: 0 <= j < i && rule.sourceFields[j] != "job_title" && rule.sourceFields[j] != "job_description" ==>
           !CarriedBy(record, rule.sourceFields[j], rule)
  }

  // Observed when published, or first seen, and expiring at the earliest of the three limits.
  ghost predicate PostingRow(s: Signal, record: Record, rule: Rule, p: Posting, maxAge: int) {
    && s.active && s.record == record.id
    && s.observedAt == (if p.publishedOn.Some? then p.publishedOn.value * 86400 else p.firstSeenAt)
    && s.expiresAt.Some? && ExpiresFirst(s.expiresAt.value, s.observedAt, p, rule, maxAge)
    && PostingDetected(s, record, rule, p)
  }

  // Observed with the record, and expiring after the rule's own period, if it has one.
  ghost predicate RecordRow(s: Signal, record: Record, rule: Rule) {
    && s.active && s.record == record.id && s.observedAt == record.observedAt
    && s.expiresAt == (if rule.expiresAfterDays > 0 then Some(record.observedAt + rule.expiresAfterDays * 86400) else None)
    && RecordDetected(s, record, rule)
  }

  lemma PostingHitRow(prior: Option<Signal>, h: Hit, p: Posting, maxAge: int)
    requires h.m.posting == Some(p) && FirstOnPosting(h.m, p, h.rule.sourceFields, h.rule)
    ensures PostingRow(Detected(prior, h, maxAge), h.record, h.rule, p, maxAge)
  {
    hide Terms, Carries, AreTermsOf, ExpiresFirst;
    var s, rule, fields := Detected(prior, h, maxAge), h.rule, h.rule.sourceFields;
    var i :| 0 <= i < |fields| && fields[i] == h.m.field && IsJobField(fields[i])
      && h.m.terms == PostingTerms(p, fields[i], rule) != []
      && forall j :: 0 <= j < i && IsJobField(fields[j]) ==> PostingTerms(p, fields[j], rule) == [];
    forall field ensures PostingTerms(p, field, rule) != [] <==> Carries(TextOf(p, field), rule) {
      PostingTermsCarry(p, field, rule);
    }
    TermsAreTerms(TextOf(p, fields[i]), rule);
    assert (rule.key, rule.version, h.record.id, fields[i]) in s.detections;
    assert PostingDetected(s, h.record, rule, p);
  }

  lemma RecordHitRow(prior: Option<Signal>, h: Hit, maxAge: int)
    requires h.m.posting == None && FirstOnRecord(h.m, h.record, h.rule.sourceFields, h.rule)
    ensures RecordRow(Detected(prior, h, maxAge), h.record, h.rule)
  {
    hide Terms, Carries, AreTermsOf;
    var s, rule, fields := Detected(prior, h, maxAge), h.rule, h.rule.sourceFields;
    var i :| 0 <= i < |fields| && fields[i] == h.m.field && !IsJobField(fields[i])
      && h.m.terms == RecordTerms(h.record, fields[i], rule) != []
      && forall j :: 0 <= j < i && !IsJobField(fields[j]) ==> RecordTerms(h.record, fields[j], rule) == [];
    forall field ensures RecordTerms(h.record, field, rule) != [] <==> CarriedBy(h.record, field, rule) {
      if field in h.record.values {
        TermsCarry(h.record.values[field], rule);
      }
    }
    TermsAreTerms(h.record.values[fields[i]], rule);
    assert (rule.key, rule.version, h.record.id, fields[i]) in s.detections;
    assert RecordDetected(s, h.record, rule);
  }

  // The hit that backs a key, and the row it leaves.
  lemma HitRow(s: Signals, records: seq<Record>, rules: seq<Rule>, ps: seq<Posting>, maxAge: int, record: Record, rule: Rule, e: Evidence)
    returns (h: Hit, prior: Option<Signal>)
    requires Unique(records, rules, ps) && Pair(record, rule, records, rules) && Backs(record, rule, ps, e)
    ensures h in HitsOfRule(record, rule, MatchesOf(record, rule, ps)) && EvidenceOf(h) == e && h.rule == rule && h.record == record
    ensures var k, after := SignalKey(rule.signalType, rule.key, rule.version, e), Run(s, HitsOf(records, rules, ps), maxAge);
      k in after && after[k] == Detected(prior, h, maxAge)
  {
    hide HitsOf, HitsOfRecord, MatchesOf, Backs, EvidenceOf, Run, Detected, OncePerKey;
    var hs := HitsOf(records, rules, ps);
    HitByIsBacks(record, rule, ps, e);
    h :| h in HitsOfRule(record, rule, MatchesOf(record, rule, ps)) && EvidenceOf(h) == e;
    HitRule(record, rule, ps, h);
    RecordHits(record, rules, ps, h);
    AllHits(records, rules, ps, h);
    HitsOncePerKey(records, rules, ps);
    OnlyHitDecides(s, hs, h, maxAge);
    prior :| Run(s, hs, maxAge)[KeyOf(h)] == Detected(prior, h, maxAge);
  }

  /**
   The row of every posting a rule matches: its record, the day of the posting, the earliest of the three
   expirations, and under the first field that carries the terms, the terms found in it.
   */
  lemma PostingSignalRow(s: Signals, records: seq<Record>, rules: seq<Rule>, ps: seq<Posting>, maxAge: int,
                         record: Record, rule: Rule, p: Posting)
    requires Unique(records, rules, ps) && Pair(record, rule, records, rules)
    requires p in ps && p.active && p.record == record.id && PostingCarries(p, rule)
    ensures var k, after := SignalKey(rule.signalType, rule.key, rule.version, OfPosting(p.fingerprint)), Run(s, HitsOf(records, rules, ps), maxAge);
      k in after && PostingRow(after[k], record, rule, p, maxAge)
  {
    hide HitsOf, Run, Detected, PostingCarries, PostingRow, RuleMatches, FirstOnPosting;
    assert Backs(record, rule, ps, OfPosting(p.fingerprint));
    var h, prior := HitRow(s, records, rules, ps, maxAge, record, rule, OfPosting(p.fingerprint));
    RuleHitsAreFrom(record, rule, ps, h);
    PostingDecidesRecord(ps, h.m.posting.value, p);
    PostingMatchIsFirst(record, rule, rule.sourceFields, ActiveOf(record.id, ps), {}, false, h.m);
    PostingHitRow(prior, h, p, maxAge);
  }

  /** The row of every record a rule matches by one of its own fields. */
  lemma RecordSignalRow(s: Signals, records: seq<Record>, rules: seq<Rule>, ps: seq<Posting>, maxAge: int, record: Record, rule: Rule)
    requires Unique(records, rules, ps) && Pair(record, rule, records, rules) && RecordCarries(record, rule)
    ensures var k, after := SignalKey(rule.signalType, rule.key, rule.version, OfRecord(record.id)), Run(s, HitsOf(records, rules, ps), maxAge);
      k in after && RecordRow(after[k], record, rule)
  {
    hide HitsOf, Run, Detected, RecordCarries, RecordRow, RuleMatches, FirstOnRecord;
    assert Backs(record, rule, ps, OfRecord(record.id));
    var h, prior := HitRow(s, records, rules, ps, maxAge, record, rule, OfRecord(record.id));
    RecordMatchIsFirst(record, rule, rule.sourceFields, ActiveOf(record.id, ps), {}, false, h.m);
    RecordHitRow(prior, h, maxAge);
  }
}
