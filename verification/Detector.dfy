/** Matching a signal rule against a source record and the active job postings it carries. */
module Detector {
  import opened Basics
  import opened TermSearch
  import opened Ordering

  type Time = int
  type Day = int

  const JOB_TITLE := "job_title"
  const JOB_DESCRIPTION := "job_description"

  datatype Rule = Rule(key: string, version: nat, signalType: string, keywords: seq<string>, matchAll: bool,
                       sourceFields: seq<string>, expiresAfterDays: nat)

  datatype Posting = Posting(fingerprint: string, record: nat, title: string, description: string, active: bool,
                             publishedOn: Option<Day>, validThrough: Option<Day>, firstSeenAt: Time)

  // A record with the text its payload holds under each path.
  datatype Record = Record(id: nat, values: map<string, string>, observedAt: Time)

  // ------------------------------------------------------------------ matching terms

  predicate Normalized(keyword: string, text: string) {
    Normalize(keyword) != "" && BoundarySearch(text, Normalize(keyword))
  }

  function FoundIn(keywords: seq<string>, text: string): seq<string> {
    if keywords == [] then []
    else (if Normalized(keywords[0], text) then [keywords[0]] else []) + FoundIn(keywords[1..], text)
  }

  function Terms(text: string, rule: Rule): seq<string> {
    var found := FoundIn(rule.keywords, Normalize(text));
    if rule.matchAll && |found| != |rule.keywords| then [] else found
  }

  lemma {:induction false} FoundInIs(keywords: seq<string>, text: string)
    ensures |FoundIn(keywords, text)| <= |keywords|
    ensures |FoundIn(keywords, text)| == |keywords| <==> forall k :: k in keywords ==> Normalized(k, text)
    ensures FoundIn(keywords, text) != [] <==> exists k :: k in keywords && Normalized(k, text)
  {
    hide Normalized;
    if keywords != [] {
      FoundInIs(keywords[1..], text);
      assert keywords == [keywords[0]] + keywords[1..];
    }
  }

  /** ANY needs one keyword among the text's tokens, ALL needs every one, and no keyword means no match. */
  lemma TermsMatchExactly(text: string, rule: Rule)
    ensures Terms(text, rule) != [] <==>
      (exists k :: k in rule.keywords && Normalized(k, Normalize(text)))
      && (rule.matchAll ==> forall k :: k in rule.keywords ==> Normalized(k, Normalize(text)))
  {
    hide Normalized;
    FoundInIs(rule.keywords, Normalize(text));
  }

  method MatchedTerms(text: string, rule: Rule) returns (terms: seq<string>)
    ensures terms == Terms(text, rule)
  {
    hide Normalized, BoundarySearch;
    var normalized := Normalize(text);
    terms := [];
    assert rule.keywords[0..] == rule.keywords;
    for i := 0 to |rule.keywords|
      invariant FoundIn(rule.keywords, normalized) == terms + FoundIn(rule.keywords[i..], normalized)
    {
      var keyword := rule.keywords[i];
      assert rule.keywords[i..][0] == keyword && rule.keywords[i..][1..] == rule.keywords[i + 1..];
      if Normalized(keyword, normalized) {
        terms := terms + [keyword];
      }
    }
    if rule.matchAll && |terms| != |rule.keywords| {
      return [];
    }
  }

  // ------------------------------------------------------------------- matching rules

  datatype Match = Match(field: string, terms: seq<string>, posting: Option<Posting>)

  predicate IsJobField(field: string) {
    field == JOB_TITLE || field == JOB_DESCRIPTION
  }

  function PostingText(p: Posting, field: string): string {
    if field == JOB_TITLE then p.title else p.description
  }

  function PostingTerms(p: Posting, field: string, rule: Rule): seq<string> {
    if PostingText(p, field) == "" then [] else Terms(PostingText(p, field), rule)
  }

  function RecordTerms(record: Record, field: string, rule: Rule): seq<string> {
    if field in record.values then Terms(record.values[field], rule) else []
  }

  // The postings matched before, by this field, in order.
  function PostingMatches(postings: seq<Posting>, field: string, rule: Rule, done: set<string>): seq<Match> {
    if postings == [] then []
    else
      var p := postings[0];
      var terms := if p.fingerprint in done then [] else PostingTerms(p, field, rule);
      (if terms == [] then [] else [Match(field, terms, Some(p))])
      + PostingMatches(postings[1..], field, rule, if terms == [] then done else done + {p.fingerprint})
  }

  function Fingerprints(ms: seq<Match>): set<string> {
    set i | 0 <= i < |ms| && ms[i].posting.Some? :: ms[i].posting.value.fingerprint
  }

  // `_rule_matches`: each posting once, and one match on the record itself.
  function RuleMatches(record: Record, rule: Rule, fields: seq<string>, postings: seq<Posting>, done: set<string>, generic: bool): seq<Match> {
    if fields == [] then []
    else if IsJobField(fields[0]) then
      var ms := PostingMatches(postings, fields[0], rule, done);
      ms + RuleMatches(record, rule, fields[1..], postings, done + Fingerprints(ms), generic)
    else
      var terms := if generic then [] else RecordTerms(record, fields[0], rule);
      (if terms == [] then [] else [Match(fields[0], terms, None)])
      + RuleMatches(record, rule, fields[1..], postings, done, generic || terms != [])
  }

  function PostingHit(p: Posting, field: string, rule: Rule, done: set<string>): seq<Match> {
    var terms := if p.fingerprint in done then [] else PostingTerms(p, field, rule);
    if terms == [] then [] else [Match(field, terms, Some(p))]
  }

  lemma HitFingerprints(p: Posting, field: string, rule: Rule, done: set<string>)
    ensures Fingerprints(PostingHit(p, field, rule, done)) == if PostingHit(p, field, rule, done) == [] then {} else {p.fingerprint}
  {
    hide PostingTerms;
    NoFingerprints();
    var hit := PostingHit(p, field, rule, done);
    if hit != [] {
      FingerprintsNext([], hit[0]);
      assert [] + [hit[0]] == hit;
    }
  }

  // The first posting, then the others.
  lemma PostingCons(postings: seq<Posting>, i: nat, field: string, rule: Rule, done: set<string>)
    requires i < |postings|
    ensures var hit := PostingHit(postings[i], field, rule, done);
      PostingMatches(postings[i..], field, rule, done) == hit + PostingMatches(postings[i + 1..], field, rule, done + Fingerprints(hit))
  {
    hide PostingTerms, Fingerprints;
    assert postings[i..][0] == postings[i] && postings[i..][1..] == postings[i + 1..];
    HitFingerprints(postings[i], field, rule, done);
    assert done + {} == done;
  }

  lemma PostingStep(ms: seq<Match>, postings: seq<Posting>, i: nat, field: string, rule: Rule, done: set<string>)
    requires i < |postings|
    ensures var hit := PostingHit(postings[i], field, rule, done);
      && ms + PostingMatches(postings[i..], field, rule, done)
         == (ms + hit) + PostingMatches(postings[i + 1..], field, rule, done + Fingerprints(hit))
      && Fingerprints(ms + hit) == Fingerprints(ms) + Fingerprints(hit)
      && Fingerprints(hit) == (if hit == [] then {} else {postings[i].fingerprint})
  {
    hide PostingTerms, PostingMatches, Fingerprints;
    var hit := PostingHit(postings[i], field, rule, done);
    PostingCons(postings, i, field, rule, done);
    HitFingerprints(postings[i], field, rule, done);
    Associates(ms, hit, PostingMatches(postings[i + 1..], field, rule, done + Fingerprints(hit)));
    if hit == [] {
      assert ms + hit == ms;
    } else {
      FingerprintsNext(ms, hit[0]);
      assert hit == [hit[0]];
    }
  }

  method PostingLoop(postings: seq<Posting>, field: string, rule: Rule, before: set<string>) returns (ms: seq<Match>, done: set<string>)
    ensures ms == PostingMatches(postings, field, rule, before) && done == before + Fingerprints(ms)
  {
    hide Terms, PostingMatches, Fingerprints;
    ms, done := [], before;
    assert postings[0..] == postings;
    NoFingerprints();
    for i := 0 to |postings|
      invariant PostingMatches(postings, field, rule, before) == ms + PostingMatches(postings[i..], field, rule, done)
      invariant done == before + Fingerprints(ms)
    {
      var p := postings[i];
      PostingStep(ms, postings, i, field, rule, done);
      assert ms + [] == ms && done + {} == done;
      if p.fingerprint !in done {
        var value := if field == JOB_TITLE then p.title else p.description;
        var terms := [];
        if value != "" {
          terms := MatchedTerms(value, rule);
        }
        if terms != [] {
          ms := ms + [Match(field, terms, Some(p))];
          done := done + {p.fingerprint};
        }
      }
    }
    NoPostings(field, rule, done);
    assert postings[|postings|..] == [];
  }

  lemma NoFingerprints()
    ensures Fingerprints([]) == {}
  {
  }

  lemma NoPostings(field: string, rule: Rule, done: set<string>)
    ensures PostingMatches([], field, rule, done) == []
  {
  }

  lemma FingerprintsNext(ms: seq<Match>, m: Match)
    ensures Fingerprints(ms + [m]) == Fingerprints(ms) + if m.posting.Some? then {m.posting.value.fingerprint} else {}
  {
    var xs := ms + [m];
    forall f ensures f in Fingerprints(xs) <==> f in Fingerprints(ms) || (m.posting.Some? && f == m.posting.value.fingerprint) {
      if f in Fingerprints(ms) {
        var i :| 0 <= i < |ms| && ms[i].posting.Some? && ms[i].posting.value.fingerprint == f;
        assert xs[i] == ms[i];
      }
      assert xs[|ms|] == m;
    }
  }

  // The next field, then the others.
  lemma FieldStep(ms: seq<Match>, record: Record, rule: Rule, fields: seq<string>, i: nat, postings: seq<Posting>, done: set<string>, generic: bool)
    requires i < |fields|
    ensures ms + RuleMatches(record, rule, fields[i..], postings, done, generic) ==
      if IsJobField(fields[i]) then
        var found := PostingMatches(postings, fields[i], rule, done);
        (ms + found) + RuleMatches(record, rule, fields[i + 1..], postings, done + Fingerprints(found), generic)
      else
        var terms := if generic then [] else RecordTerms(record, fields[i], rule);
        (ms + if terms == [] then [] else [Match(fields[i], terms, None)])
        + RuleMatches(record, rule, fields[i + 1..], postings, done, generic || terms != [])
  {
    hide RecordTerms, PostingMatches, Fingerprints, IsJobField;
    assert fields[i..][0] == fields[i] && fields[i..][1..] == fields[i + 1..];
    if IsJobField(fields[i]) {
      var found := PostingMatches(postings, fields[i], rule, done);
      Associates(ms, found, RuleMatches(record, rule, fields[i + 1..], postings, done + Fingerprints(found), generic));
    } else {
      var terms := if generic then [] else RecordTerms(record, fields[i], rule);
      Associates(ms, if terms == [] then [] else [Match(fields[i], terms, None)],
                 RuleMatches(record, rule, fields[i + 1..], postings, done, generic || terms != []));
    }
  }

  method MatchRule(record: Record, rule: Rule, postings: seq<Posting>) returns (ms: seq<Match>)
    ensures ms == RuleMatches(record, rule, rule.sourceFields, postings, {}, false)
  {
    hide Terms, PostingMatches, Fingerprints, RuleMatches;
    var fields := rule.sourceFields;
    ms := [];
    var done, generic := {}, false;
    assert fields[0..] == fields;
    assert ms + RuleMatches(record, rule, fields, postings, {}, false) == RuleMatches(record, rule, fields, postings, {}, false);
    for i := 0 to |fields|
      invariant RuleMatches(record, rule, fields, postings, {}, false)
             == ms + RuleMatches(record, rule, fields[i..], postings, done, generic)
    {
      var field := fields[i];
      FieldStep(ms, record, rule, fields, i, postings, done, generic);
      assert ms + [] == ms;
      if field == JOB_TITLE || field == JOB_DESCRIPTION {
        var found;
        found, done := PostingLoop(postings, field, rule, done);
        ms := ms + found;
      } else if !generic && field in record.values {
        var terms := MatchedTerms(record.values[field], rule);
        if terms != [] {
          ms := ms + [Match(field, terms, None)];
          generic := true;
        }
      }
    }
    assert fields[|fields|..] == [];
    NoFieldsLeft(record, rule, postings, done, generic);
    assert ms + [] == ms;
  }

  lemma NoFieldsLeft(record: Record, rule: Rule, postings: seq<Posting>, done: set<string>, generic: bool)
    ensures RuleMatches(record, rule, [], postings, done, generic) == []
  {
  }

  // ------------------------------------------------------- what a rule matches, exactly

  // No two matches rest on the same posting, or both on the record.
  ghost predicate OncePerEvidence(ms: seq<Match>) {
    forall i, j :: 0 <= i < j < |ms| ==>
      if ms[i].posting.Some? && ms[j].posting.Some?
      then ms[i].posting.value.fingerprint != ms[j].posting.value.fingerprint
      else ms[i].posting.Some? || ms[j].posting.Some?
  }

  ghost predicate OnPosting(ms: seq<Match>, f: string) {
    exists i :: 0 <= i < |ms| && ms[i].posting.Some? && ms[i].posting.value.fingerprint == f
  }

  ghost predicate OnRecord(ms: seq<Match>) {
    exists i :: 0 <= i < |ms| && ms[i].posting.None?
  }

  ghost predicate FieldFinds(postings: seq<Posting>, field: string, rule: Rule, f: string) {
    exists i :: 0 <= i < |postings| && postings[i].fingerprint == f && PostingTerms(postings[i], field, rule) != []
  }

  lemma ConsMatch(m: Match, ms: seq<Match>, f: string)
    ensures OnPosting([m] + ms, f) <==> (m.posting.Some? && m.posting.value.fingerprint == f) || OnPosting(ms, f)
    ensures OnRecord([m] + ms) <==> m.posting.None? || OnRecord(ms)
  {
    var xs := [m] + ms;
    assert xs[0] == m;
    if OnPosting(ms, f) {
      var i :| 0 <= i < |ms| && ms[i].posting.Some? && ms[i].posting.value.fingerprint == f;
      assert xs[i + 1] == ms[i];
    }
    if OnRecord(ms) {
      var i :| 0 <= i < |ms| && ms[i].posting.None?;
      assert xs[i + 1] == ms[i];
    }
  }

  lemma FieldFindsCons(postings: seq<Posting>, field: string, rule: Rule, f: string)
    requires postings != []
    ensures FieldFinds(postings, field, rule, f)
       <==> (postings[0].fingerprint == f && PostingTerms(postings[0], field, rule) != []) || FieldFinds(postings[1..], field, rule, f)
  {
    hide PostingTerms;
    if FieldFinds(postings[1..], field, rule, f) {
      var i :| 0 <= i < |postings[1..]| && postings[1..][i].fingerprint == f && PostingTerms(postings[1..][i], field, rule) != [];
      assert postings[i + 1] == postings[1..][i];
    }
  }

  lemma {:induction false} PostingMatchesExact(postings: seq<Posting>, field: string, rule: Rule, done: set<string>, f: string)
    ensures var ms := PostingMatches(postings, field, rule, done);
      && (OnPosting(ms, f) <==> f !in done && FieldFinds(postings, field, rule, f))
      && !OnRecord(ms)
  {
    hide PostingTerms, OnPosting, OnRecord, FieldFinds;
    if postings == [] {
      NothingFound(field, rule, f);
    } else {
      var p := postings[0];
      var terms := if p.fingerprint in done then [] else PostingTerms(p, field, rule);
      FieldFindsCons(postings, field, rule, f);
      var next := if terms == [] then done else done + {p.fingerprint};
      PostingMatchesExact(postings[1..], field, rule, next, f);
      var ms := PostingMatches(postings[1..], field, rule, next);
      ConsMatch(Match(field, terms, Some(p)), ms, f);
      assert [] + ms == ms;
    }
  }

  lemma NothingFound(field: string, rule: Rule, f: string)
    ensures !OnPosting([], f) && !OnRecord([]) && !FieldFinds([], field, rule, f)
  {
  }

  lemma {:induction false} PostingMatchesOnce(postings: seq<Posting>, field: string, rule: Rule, done: set<string>)
    ensures OncePerEvidence(PostingMatches(postings, field, rule, done))
  {
    hide PostingTerms, OncePerEvidence, FieldFinds;
    if postings == [] {
      OnceEmpty();
    } else {
      var p := postings[0];
      var terms := if p.fingerprint in done then [] else PostingTerms(p, field, rule);
      var next := if terms == [] then done else done + {p.fingerprint};
      var ms := PostingMatches(postings[1..], field, rule, next);
      PostingMatchesOnce(postings[1..], field, rule, next);
      PostingMatchesExact(postings[1..], field, rule, next, p.fingerprint);
      assert [] + ms == ms;
      if terms != [] {
        OnceCons(Match(field, terms, Some(p)), ms);
      }
    }
  }

  lemma OnceEmpty()
    ensures OncePerEvidence([])
  {
  }

  lemma OnceCons(m: Match, ms: seq<Match>)
    requires OncePerEvidence(ms)
    requires if m.posting.Some? then !OnPosting(ms, m.posting.value.fingerprint) else !OnRecord(ms)
    ensures OncePerEvidence([m] + ms)
  {
    var xs := [m] + ms;
    forall j | 1 <= j < |xs| ensures xs[j] == ms[j - 1] {
    }
  }

  lemma OnceAppend(xs: seq<Match>, ys: seq<Match>)
    requires OncePerEvidence(xs) && OncePerEvidence(ys) && !OnRecord(xs)
    requires forall f :: !(OnPosting(xs, f) && OnPosting(ys, f))
    ensures OncePerEvidence(xs + ys)
  {
    var zs := xs + ys;
    forall i, j | 0 <= i < |xs| && 0 <= j < |ys|
      ensures xs[i].posting.Some? && (ys[j].posting.Some? ==> xs[i].posting.value.fingerprint != ys[j].posting.value.fingerprint)
    {
      assert xs[i].posting.None? ==> OnRecord(xs);
      if ys[j].posting.Some? && xs[i].posting.Some? {
        assert OnPosting(xs, xs[i].posting.value.fingerprint) && OnPosting(ys, ys[j].posting.value.fingerprint);
      }
    }
  }

  ghost predicate RuleFinds(postings: seq<Posting>, fields: seq<string>, rule: Rule, f: string) {
    exists i :: 0 <= i < |fields| && IsJobField(fields[i]) && FieldFinds(postings, fields[i], rule, f)
  }

  ghost predicate RecordFinds(record: Record, fields: seq<string>, rule: Rule) {
    exists i :: 0 <= i < |fields| && !IsJobField(fields[i]) && RecordTerms(record, fields[i], rule) != []
  }

  lemma FindsCons(record: Record, postings: seq<Posting>, fields: seq<string>, rule: Rule, f: string)
    requires fields != []
    ensures RuleFinds(postings, fields, rule, f)
       <==> (IsJobField(fields[0]) && FieldFinds(postings, fields[0], rule, f)) || RuleFinds(postings, fields[1..], rule, f)
    ensures RecordFinds(record, fields, rule)
       <==> (!IsJobField(fields[0]) && RecordTerms(record, fields[0], rule) != []) || RecordFinds(record, fields[1..], rule)
  {
    hide RecordTerms, FieldFinds, IsJobField;
    if RuleFinds(postings, fields[1..], rule, f) {
      var i :| 0 <= i < |fields[1..]| && IsJobField(fields[1..][i]) && FieldFinds(postings, fields[1..][i], rule, f);
      assert fields[i + 1] == fields[1..][i];
    }
    if RecordFinds(record, fields[1..], rule) {
      var i :| 0 <= i < |fields[1..]| && !IsJobField(fields[1..][i]) && RecordTerms(record, fields[1..][i], rule) != [];
      assert fields[i + 1] == fields[1..][i];
    }
  }

  lemma OnAppend(xs: seq<Match>, ys: seq<Match>, f: string)
    ensures OnPosting(xs + ys, f) <==> OnPosting(xs, f) || OnPosting(ys, f)
    ensures OnRecord(xs + ys) <==> OnRecord(xs) || OnRecord(ys)
  {
    var zs := xs + ys;
    assert forall i :: 0 <= i < |xs| ==> zs[i] == xs[i];
    assert forall i :: 0 <= i < |ys| ==> zs[|xs| + i] == ys[i];
  }

  lemma FingerprintsAre(ms: seq<Match>, f: string)
    ensures f in Fingerprints(ms) <==> OnPosting(ms, f)
  {
  }

  lemma {:induction false} RuleMatchesExact(record: Record, rule: Rule, fields: seq<string>, postings: seq<Posting>,
                                            done: set<string>, generic: bool, f: string)
    ensures var ms := RuleMatches(record, rule, fields, postings, done, generic);
      && (OnPosting(ms, f) <==> f !in done && RuleFinds(postings, fields, rule, f))
      && (OnRecord(ms) <==> !generic && RecordFinds(record, fields, rule))
  {
    hide PostingMatches, RecordTerms, OnPosting, OnRecord, FieldFinds, RuleFinds, RecordFinds, Fingerprints, IsJobField;
    if fields == [] {
      NoFields(record, postings, rule, f);
    } else {
      FindsCons(record, postings, fields, rule, f);
      if IsJobField(fields[0]) {
        var ms := PostingMatches(postings, fields[0], rule, done);
        PostingMatchesExact(postings, fields[0], rule, done, f);
        FingerprintsAre(ms, f);
        RuleMatchesExact(record, rule, fields[1..], postings, done + Fingerprints(ms), generic, f);
        OnAppend(ms, RuleMatches(record, rule, fields[1..], postings, done + Fingerprints(ms), generic), f);
      } else {
        var terms := if generic then [] else RecordTerms(record, fields[0], rule);
        var rest := RuleMatches(record, rule, fields[1..], postings, done, generic || terms != []);
        RuleMatchesExact(record, rule, fields[1..], postings, done, generic || terms != [], f);
        ConsMatch(Match(fields[0], terms, None), rest, f);
        assert [] + rest == rest;
      }
    }
  }

  lemma NoFields(record: Record, postings: seq<Posting>, rule: Rule, f: string)
    ensures !OnPosting([], f) && !OnRecord([]) && !RuleFinds(postings, [], rule, f) && !RecordFinds(record, [], rule)
  {
  }

  lemma {:induction false} RuleMatchesOnce(record: Record, rule: Rule, fields: seq<string>, postings: seq<Posting>, done: set<string>, generic: bool)
    ensures OncePerEvidence(RuleMatches(record, rule, fields, postings, done, generic))
  {
    hide PostingMatches, RecordTerms, OnPosting, OnRecord, RuleFinds, RecordFinds, Fingerprints, FieldFinds, OncePerEvidence, IsJobField;
    if fields == [] {
      OnceEmpty();
    } else if IsJobField(fields[0]) {
      var ms := PostingMatches(postings, fields[0], rule, done);
      var next := done + Fingerprints(ms);
      var rest := RuleMatches(record, rule, fields[1..], postings, next, generic);
      PostingMatchesOnce(postings, fields[0], rule, done);
      PostingMatchesExact(postings, fields[0], rule, done, "");
      RuleMatchesOnce(record, rule, fields[1..], postings, next, generic);
      forall f ensures !(OnPosting(ms, f) && OnPosting(rest, f)) {
        FingerprintsAre(ms, f);
        RuleMatchesExact(record, rule, fields[1..], postings, next, generic, f);
      }
      OnceAppend(ms, rest);
    } else {
      var terms := if generic then [] else RecordTerms(record, fields[0], rule);
      var rest := RuleMatches(record, rule, fields[1..], postings, done, generic || terms != []);
      RuleMatchesOnce(record, rule, fields[1..], postings, done, generic || terms != []);
      RuleMatchesExact(record, rule, fields[1..], postings, done, generic || terms != [], "");
      assert [] + rest == rest;
      if terms != [] {
        OnceCons(Match(fields[0], terms, None), rest);
      }
    }
  }

  /**
   A rule yields at most one match for a posting and one for the record itself, and it yields one
   exactly when some field it names carries its terms.
   */
  lemma MatchesAreExact(record: Record, rule: Rule, postings: seq<Posting>, f: string)
    ensures var ms := RuleMatches(record, rule, rule.sourceFields, postings, {}, false);
      && OncePerEvidence(ms)
      && (OnPosting(ms, f) <==> RuleFinds(postings, rule.sourceFields, rule, f))
      && (OnRecord(ms) <==> RecordFinds(record, rule.sourceFields, rule))
  {
    hide RuleMatches, OnPosting, OnRecord, RuleFinds, RecordFinds, OncePerEvidence;
    RuleMatchesOnce(record, rule, rule.sourceFields, postings, {}, false);
    RuleMatchesExact(record, rule, rule.sourceFields, postings, {}, false, f);
  }

  // --------------------------------------------------------- what a match carries

  /** The keywords found are the ones among the text's tokens, as often as the rule lists them and in its order. */
  lemma {:induction false} FoundInOrder(keywords: seq<string>, more: seq<string>, text: string, k: string)
    ensures FoundIn(keywords + more, text) == FoundIn(keywords, text) + FoundIn(more, text)
    ensures multiset(FoundIn(keywords, text))[k] == if Normalized(k, text) then multiset(keywords)[k] else 0
  {
    hide Normalized;
    if keywords == [] {
      assert keywords + more == more;
    } else {
      assert (keywords + more)[1..] == keywords[1..] + more;
      assert keywords == [keywords[0]] + keywords[1..];
      FoundInOrder(keywords[1..], more, text, k);
    }
  }

  // The first of the fields that finds something on the posting, and what it finds.
  ghost predicate FirstOnPosting(m: Match, p: Posting, fields: seq<string>, rule: Rule) {
    exists i :: 0 <= i < |fields| && fields[i] == m.field && IsJobField(fields[i])
      && m.terms == PostingTerms(p, fields[i], rule) != []
      && forall j :: 0 <= j < i && IsJobField(fields[j]) ==> PostingTerms(p, fields[j], rule) == []
  }

  ghost predicate FirstOnRecord(m: Match, record: Record, fields: seq<string>, rule: Rule) {
    exists i :: 0 <= i < |fields| && fields[i] == m.field && !IsJobField(fields[i])
      && m.terms == RecordTerms(record, fields[i], rule) != []
      && forall j :: 0 <= j < i && !IsJobField(fields[j]) ==> RecordTerms(record, fields[j], rule) == []
  }

  lemma {:induction false} PostingMatchIs(ps: seq<Posting>, field: string, rule: Rule, done: set<string>, m: Match)
    requires m in PostingMatches(ps, field, rule, done)
    ensures m.posting.Some? && m.posting.value in ps && m.field == field && m.posting.value.fingerprint !in done
    ensures m.terms == PostingTerms(m.posting.value, field, rule) != []
  {
    hide PostingTerms;
    var p := ps[0];
    assert ps == [p] + ps[1..];
    var terms := if p.fingerprint in done then [] else PostingTerms(p, field, rule);
    if m in PostingMatches(ps[1..], field, rule, if terms == [] then done else done + {p.fingerprint}) {
      PostingMatchIs(ps[1..], field, rule, if terms == [] then done else done + {p.fingerprint}, m);
    }
  }

  // Nothing found by this field on a posting that gave no match of it.
  lemma SilentField(ps: seq<Posting>, field: string, rule: Rule, done: set<string>, p: Posting)
    requires p in ps && p.fingerprint !in done && !OnPosting(PostingMatches(ps, field, rule, done), p.fingerprint)
    ensures PostingTerms(p, field, rule) == []
  {
    hide PostingTerms, PostingMatches, OnPosting;
    PostingMatchesExact(ps, field, rule, done, p.fingerprint);
    var i :| 0 <= i < |ps| && ps[i] == p;
  }

  lemma FirstOnPostingCons(m: Match, p: Posting, fields: seq<string>, rule: Rule)
    requires fields != [] && FirstOnPosting(m, p, fields[1..], rule)
    requires IsJobField(fields[0]) ==> PostingTerms(p, fields[0], rule) == []
    ensures FirstOnPosting(m, p, fields, rule)
  {
    hide PostingTerms, IsJobField;
    var rest := fields[1..];
    var i :| 0 <= i < |rest| && rest[i] == m.field && IsJobField(rest[i])
      && m.terms == PostingTerms(p, rest[i], rule) != []
      && forall j :: 0 <= j < i && IsJobField(rest[j]) ==> PostingTerms(p, rest[j], rule) == [];
    assert fields[i + 1] == rest[i];
    forall j | 0 <= j < i + 1 && IsJobField(fields[j]) ensures PostingTerms(p, fields[j], rule) == [] {
      assert j > 0 ==> fields[j] == rest[j - 1];
    }
  }

  lemma {:induction false} PostingMatchIsFirst(record: Record, rule: Rule, fields: seq<string>, ps: seq<Posting>,
                                               done: set<string>, generic: bool, m: Match)
    requires m in RuleMatches(record, rule, fields, ps, done, generic) && m.posting.Some?
    ensures m.posting.value in ps && m.posting.value.fingerprint !in done
    ensures FirstOnPosting(m, m.posting.value, fields, rule)
  {
    hide PostingMatches, RecordTerms, PostingTerms, Fingerprints, IsJobField, FirstOnPosting, OnPosting;
    if IsJobField(fields[0]) {
      var ms := PostingMatches(ps, fields[0], rule, done);
      if m in ms {
        PostingMatchIs(ps, fields[0], rule, done, m);
        FirstFieldFinds(m, fields, rule);
      } else {
        PostingMatchIsFirst(record, rule, fields[1..], ps, done + Fingerprints(ms), generic, m);
        FingerprintsAre(ms, m.posting.value.fingerprint);
        SilentField(ps, fields[0], rule, done, m.posting.value);
        FirstOnPostingCons(m, m.posting.value, fields, rule);
      }
    } else {
      var terms := if generic then [] else RecordTerms(record, fields[0], rule);
      PostingMatchIsFirst(record, rule, fields[1..], ps, done, generic || terms != [], m);
      FirstOnPostingCons(m, m.posting.value, fields, rule);
    }
  }

  lemma FirstFieldFinds(m: Match, fields: seq<string>, rule: Rule)
    requires fields != [] && IsJobField(fields[0]) && m.field == fields[0] && m.posting.Some?
    requires m.terms == PostingTerms(m.posting.value, fields[0], rule) != []
    ensures FirstOnPosting(m, m.posting.value, fields, rule)
  {
    hide PostingTerms, IsJobField;
  }

  lemma {:induction false} RecordMatchIsFirst(record: Record, rule: Rule, fields: seq<string>, ps: seq<Posting>,
                                              done: set<string>, generic: bool, m: Match)
    requires m in RuleMatches(record, rule, fields, ps, done, generic) && m.posting.None?
    ensures !generic && FirstOnRecord(m, record, fields, rule)
  {
    hide PostingMatches, RecordTerms, Fingerprints, IsJobField;
    if IsJobField(fields[0]) {
      var ms := PostingMatches(ps, fields[0], rule, done);
      if m in ms {
        PostingMatchIs(ps, fields[0], rule, done, m);
        assert false;
      }
      RecordMatchIsFirst(record, rule, fields[1..], ps, done + Fingerprints(ms), generic, m);
      FirstOnRecordCons(m, record, fields, rule);
    } else {
      var terms := if generic then [] else RecordTerms(record, fields[0], rule);
      if terms == [] || m != Match(fields[0], terms, None) {
        RecordMatchIsFirst(record, rule, fields[1..], ps, done, generic || terms != [], m);
        FirstOnRecordCons(m, record, fields, rule);
      }
    }
  }

  lemma FirstOnRecordCons(m: Match, record: Record, fields: seq<string>, rule: Rule)
    requires fields != [] && FirstOnRecord(m, record, fields[1..], rule)
    requires !IsJobField(fields[0]) ==> RecordTerms(record, fields[0], rule) == []
    ensures FirstOnRecord(m, record, fields, rule)
  {
    hide RecordTerms, IsJobField;
    var rest := fields[1..];
    var i :| 0 <= i < |rest| && rest[i] == m.field && !IsJobField(rest[i])
      && m.terms == RecordTerms(record, rest[i], rule) != []
      && forall j :: 0 <= j < i && !IsJobField(rest[j]) ==> RecordTerms(record, rest[j], rule) == [];
    assert fields[i + 1] == rest[i];
    forall j | 0 <= j < i + 1 && !IsJobField(fields[j]) ensures RecordTerms(record, fields[j], rule) == [] {
      assert j > 0 ==> fields[j] == rest[j - 1];
    }
  }
}
