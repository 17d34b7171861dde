/**
 One detection run over a company: an upsert per match, then switching off the generated signals
 that matched nothing this time.  Times are seconds and days start at midnight; an evidence hash
 stands for what it digests.
 */
module Detection {
  import opened Basics
  import opened Detector

  datatype Evidence = OfPosting(fingerprint: string) | OfRecord(id: nat)

  datatype SignalKey = SignalKey(signalType: string, rule: string, version: nat, evidence: Evidence)

  // (rule key, rule version, record, field)
  type DetectionKey = (string, nat, nat, string)

  // A signal is detector-generated when it has detections.
  datatype Signal = Signal(active: bool, record: nat, observedAt: Time, expiresAt: Option<Time>,
                           detections: map<DetectionKey, seq<string>>)

  type Signals = map<SignalKey, Signal>

  datatype Hit = Hit(rule: Rule, record: Record, m: Match)

  const DAY: int := 86400

  // ------------------------------------------------------------------------- postings

  function MaxAge(days: int): int {
    Max(1, days)
  }

  predicate Outdated(p: Posting, today: Day, maxAge: int) {
    (p.validThrough.Some? && p.validThrough.value < today)
    || (p.publishedOn.Some? && p.publishedOn.value < today - MaxAge(maxAge))
  }

  function Refreshed(p: Posting, today: Day, maxAge: int): Posting {
    if p.active && Outdated(p, today, maxAge) then p.(active := false) else p
  }

  function Refresh(ps: seq<Posting>, today: Day, maxAge: int): (r: seq<Posting>)
    ensures |r| == |ps| && forall i :: 0 <= i < |ps| ==> r[i] == Refreshed(ps[i], today, maxAge)
  {
    if ps == [] then [] else [Refreshed(ps[0], today, maxAge)] + Refresh(ps[1..], today, maxAge)
  }

  // The active postings of a record, in table order.
  function ActiveOf(record: nat, ps: seq<Posting>): (r: seq<Posting>)
    ensures forall p :: p in r <==> p in ps && p.active && p.record == record
  {
    if ps == [] then []
    else
      assert ps == [ps[0]] + ps[1..];
      (if ps[0].active && ps[0].record == record then [ps[0]] else []) + ActiveOf(record, ps[1..])
  }

  // ------------------------------------------------------------------ hits of one run

  function HitsOfRule(record: Record, rule: Rule, ms: seq<Match>): (hs: seq<Hit>)
    ensures |hs| == |ms| && forall i :: 0 <= i < |ms| ==> hs[i] == Hit(rule, record, ms[i])
  {
    if ms == [] then [] else [Hit(rule, record, ms[0])] + HitsOfRule(record, rule, ms[1..])
  }

  function MatchesOf(record: Record, rule: Rule, ps: seq<Posting>): seq<Match> {
    RuleMatches(record, rule, rule.sourceFields, ActiveOf(record.id, ps), {}, false)
  }

  function HitsOfRecord(record: Record, rules: seq<Rule>, ps: seq<Posting>): seq<Hit> {
    if rules == [] then []
    else HitsOfRule(record, rules[0], MatchesOf(record, rules[0], ps)) + HitsOfRecord(record, rules[1..], ps)
  }

  function HitsOf(records: seq<Record>, rules: seq<Rule>, ps: seq<Posting>): seq<Hit> {
    if records == [] then [] else HitsOfRecord(records[0], rules, ps) + HitsOf(records[1..], rules, ps)
  }

  function EvidenceOf(h: Hit): Evidence {
    if h.m.posting.Some? then OfPosting(h.m.posting.value.fingerprint) else OfRecord(h.record.id)
  }

  function KeyOf(h: Hit): SignalKey {
    SignalKey(h.rule.signalType, h.rule.key, h.rule.version, EvidenceOf(h))
  }

  function Keys(hs: seq<Hit>): set<SignalKey> {
    set i | 0 <= i < |hs| :: KeyOf(hs[i])
  }

  // ------------------------------------------------------------------------- upserts

  function Earliest(a: Time, b: Option<Time>): Time {
    if b.Some? then Min(a, b.value) else a
  }

  // The earliest of: the maximum age, the rule's own period, the end of the posting's last day.
  ghost predicate ExpiresFirst(t: Time, observed: Time, p: Posting, rule: Rule, maxAge: int) {
    && t <= observed + Max(1, maxAge) * 86400
    && (rule.expiresAfterDays > 0 ==> t <= observed + rule.expiresAfterDays * 86400)
    && (p.validThrough.Some? ==> t <= (p.validThrough.value + 1) * 86400)
    && (|| t == observed + Max(1, maxAge) * 86400
        || (rule.expiresAfterDays > 0 && t == observed + rule.expiresAfterDays * 86400)
        || (p.validThrough.Some? && t == (p.validThrough.value + 1) * 86400))
  }

  // `_job_signal_dates`
  function JobSignalDates(p: Posting, rule: Rule, maxAge: int): (r: (Time, Time))
    ensures r.0 == if p.publishedOn.Some? then p.publishedOn.value * 86400 else p.firstSeenAt
    ensures ExpiresFirst(r.1, r.0, p, rule, maxAge)
  {
    var observed := if p.publishedOn.Some? then p.publishedOn.value * DAY else p.firstSeenAt;
    var byRule := if rule.expiresAfterDays > 0 then Some(observed + rule.expiresAfterDays * DAY) else None;
    var byPosting := if p.validThrough.Some? then Some((p.validThrough.value + 1) * DAY) else None;
    (observed, Earliest(Earliest(observed + MaxAge(maxAge) * DAY, byRule), byPosting))
  }

  function Dates(h: Hit, maxAge: int): (Time, Option<Time>) {
    if h.m.posting.Some? then
      var d := JobSignalDates(h.m.posting.value, h.rule, maxAge);
      (d.0, Some(d.1))
    else
      (h.record.observedAt,
       if h.rule.expiresAfterDays > 0 then Some(h.record.observedAt + h.rule.expiresAfterDays * DAY) else None)
  }

  function DetectionKeyOf(h: Hit): DetectionKey {
    (h.rule.key, h.rule.version, h.record.id, h.m.field)
  }

  function Detected(prior: Option<Signal>, h: Hit, maxAge: int): Signal {
    var dates := Dates(h, maxAge);
    var detections := if prior.Some? then prior.value.detections else map[];
    Signal(true, h.record.id, dates.0, dates.1, detections[DetectionKeyOf(h) := h.m.terms])
  }

  function At(s: Signals, k: SignalKey): Option<Signal> {
    if k in s then Some(s[k]) else None
  }

  function Upsert(s: Signals, h: Hit, maxAge: int): Signals {
    s[KeyOf(h) := Detected(At(s, KeyOf(h)), h, maxAge)]
  }

  function UpsertAll(s: Signals, hs: seq<Hit>, maxAge: int): Signals {
    if hs == [] then s else Upsert(UpsertAll(s, hs[..|hs| - 1], maxAge), hs[|hs| - 1], maxAge)
  }

  // Generated signals that were not seen are switched off.
  function SwitchOff(s: Signals, seen: set<SignalKey>): Signals {
    map k | k in s :: if s[k].detections != map[] && k !in seen then s[k].(active := false) else s[k]
  }

  function Run(s: Signals, hs: seq<Hit>, maxAge: int): Signals {
    SwitchOff(UpsertAll(s, hs, maxAge), Keys(hs))
  }

  // The stale signals still switched on.
  function Stale(s: Signals, seen: set<SignalKey>): set<SignalKey> {
    set k | k in s && s[k].detections != map[] && k !in seen && s[k].active
  }

  // -------------------------------------------------------------- what a run leaves on

  lemma KeysNext(hs: seq<Hit>, h: Hit)
    ensures Keys(hs + [h]) == Keys(hs) + {KeyOf(h)}
  {
    hide KeyOf;
    var xs := hs + [h];
    forall k ensures k in Keys(xs) <==> k in Keys(hs) || k == KeyOf(h) {
      if k in Keys(hs) {
        var i :| 0 <= i < |hs| && KeyOf(hs[i]) == k;
        assert xs[i] == hs[i];
      }
      assert xs[|hs|] == h;
    }
  }

  lemma KeysInit(hs: seq<Hit>)
    requires hs != []
    ensures Keys(hs) == Keys(hs[..|hs| - 1]) + {KeyOf(hs[|hs| - 1])}
  {
    hide KeyOf, Keys;
    KeysNext(hs[..|hs| - 1], hs[|hs| - 1]);
    assert hs == hs[..|hs| - 1] + [hs[|hs| - 1]];
  }

  lemma {:induction false} UpsertsReach(s: Signals, hs: seq<Hit>, maxAge: int)
    ensures UpsertAll(s, hs, maxAge).Keys == s.Keys + Keys(hs)
    ensures forall k :: k in Keys(hs) ==>
      UpsertAll(s, hs, maxAge)[k].active && UpsertAll(s, hs, maxAge)[k].detections != map[]
    ensures forall k :: k in s && k !in Keys(hs) ==> UpsertAll(s, hs, maxAge)[k] == s[k]
  {
    hide KeyOf, Dates, DetectionKeyOf, Keys;
    if hs == [] {
      NoKeys();
    } else {
      KeysInit(hs);
      UpsertsReach(s, hs[..|hs| - 1], maxAge);
      var before := UpsertAll(s, hs[..|hs| - 1], maxAge);
      var h := hs[|hs| - 1];
      assert DetectionKeyOf(h) in Detected(At(before, KeyOf(h)), h, maxAge).detections;
    }
  }

  lemma NoKeys()
    ensures Keys([]) == {}
  {
  }

  /**
   After a run the active generated signals are exactly the ones matched now, hand-made signals
   are as before, and no signal is ever lost.
   */
  lemma ExactlyTheMatchedAreActive(s: Signals, hs: seq<Hit>, maxAge: int, k: SignalKey)
    ensures (k in Run(s, hs, maxAge) && Run(s, hs, maxAge)[k].active && Run(s, hs, maxAge)[k].detections != map[]) <==> k in Keys(hs)
    ensures k in s && s[k].detections == map[] && k !in Keys(hs) ==> k in Run(s, hs, maxAge) && Run(s, hs, maxAge)[k] == s[k]
    ensures Run(s, hs, maxAge).Keys == s.Keys + Keys(hs)
  {
    hide UpsertAll, Keys;
    UpsertsReach(s, hs, maxAge);
  }

  // ------------------------------------------------------------------- the second run

  // One signal after a run of hits.
  function OneAfter(first: Option<Signal>, hs: seq<Hit>, k: SignalKey, maxAge: int): Option<Signal> {
    if hs == [] then first
    else
      var before := OneAfter(first, hs[..|hs| - 1], k, maxAge);
      if KeyOf(hs[|hs| - 1]) == k then Some(Detected(before, hs[|hs| - 1], maxAge)) else before
  }

  lemma {:induction false} UpsertAllAt(s: Signals, hs: seq<Hit>, k: SignalKey, maxAge: int)
    ensures At(UpsertAll(s, hs, maxAge), k) == OneAfter(At(s, k), hs, k, maxAge)
  {
    hide KeyOf, Detected;
    if hs != [] {
      UpsertAllAt(s, hs[..|hs| - 1], k, maxAge);
    }
  }

  // The detections that the hits on k leave on top of the ones there.
  function DetectionsAfter(ds: map<DetectionKey, seq<string>>, hs: seq<Hit>, k: SignalKey): map<DetectionKey, seq<string>> {
    if hs == [] then ds
    else
      var before := DetectionsAfter(ds, hs[..|hs| - 1], k);
      if KeyOf(hs[|hs| - 1]) == k then before[DetectionKeyOf(hs[|hs| - 1]) := hs[|hs| - 1].m.terms] else before
  }

  function DetectionsOf(o: Option<Signal>): map<DetectionKey, seq<string>> {
    if o.Some? then o.value.detections else map[]
  }

  lemma {:induction false} OneAfterIs(first: Option<Signal>, hs: seq<Hit>, k: SignalKey, maxAge: int)
    ensures DetectionsOf(OneAfter(first, hs, k, maxAge)) == DetectionsAfter(DetectionsOf(first), hs, k)
  {
    hide KeyOf, Dates, DetectionKeyOf;
    if hs != [] {
      OneAfterIs(first, hs[..|hs| - 1], k, maxAge);
    }
  }

  // The last terms the hits on k record under a detection key.
  function LastTerms(hs: seq<Hit>, k: SignalKey, d: DetectionKey): Option<seq<string>> {
    if hs == [] then None
    else
      var h := hs[|hs| - 1];
      if KeyOf(h) == k && DetectionKeyOf(h) == d then Some(h.m.terms) else LastTerms(hs[..|hs| - 1], k, d)
  }

  function TermsAt(ds: map<DetectionKey, seq<string>>, d: DetectionKey): Option<seq<string>> {
    if d in ds then Some(ds[d]) else None
  }

  lemma {:induction false} DetectionsAfterAt(ds: map<DetectionKey, seq<string>>, hs: seq<Hit>, k: SignalKey, d: DetectionKey)
    ensures TermsAt(DetectionsAfter(ds, hs, k), d)
         == if LastTerms(hs, k, d).Some? then LastTerms(hs, k, d) else TermsAt(ds, d)
  {
    hide KeyOf, DetectionKeyOf;
    if hs != [] {
      DetectionsAfterAt(ds, hs[..|hs| - 1], k, d);
    }
  }

  lemma DetectionsTwice(ds: map<DetectionKey, seq<string>>, hs: seq<Hit>, k: SignalKey)
    ensures DetectionsAfter(DetectionsAfter(ds, hs, k), hs, k) == DetectionsAfter(ds, hs, k)
  {
    hide DetectionsAfter, LastTerms;
    var once := DetectionsAfter(ds, hs, k);
    var twice := DetectionsAfter(once, hs, k);
    forall d ensures TermsAt(twice, d) == TermsAt(once, d) {
      DetectionsAfterAt(ds, hs, k, d);
      DetectionsAfterAt(once, hs, k, d);
    }
    SameDetections(twice, once);
  }

  lemma SameDetections(a: map<DetectionKey, seq<string>>, b: map<DetectionKey, seq<string>>)
    requires forall d :: TermsAt(a, d) == TermsAt(b, d)
    ensures a == b
  {
    forall d ensures (d in a <==> d in b) && (d in a ==> a[d] == b[d]) {
      assert TermsAt(a, d) == TermsAt(b, d);
    }
  }

  // The rest of a signal is decided by its last hit alone.
  lemma {:induction false} LastHitDecides(a: Option<Signal>, b: Option<Signal>, hs: seq<Hit>, k: SignalKey, maxAge: int)
    requires k in Keys(hs)
    ensures OneAfter(a, hs, k, maxAge).Some? && OneAfter(b, hs, k, maxAge).Some?
    ensures OneAfter(a, hs, k, maxAge).value.(detections := map[]) == OneAfter(b, hs, k, maxAge).value.(detections := map[])
  {
    hide KeyOf, Dates, DetectionKeyOf, Keys;
    if hs == [] {
      NoKeys();
    } else {
      KeysInit(hs);
      if KeyOf(hs[|hs| - 1]) != k {
        LastHitDecides(a, b, hs[..|hs| - 1], k, maxAge);
      }
    }
  }

  lemma OneTwice(s: Signals, hs: seq<Hit>, k: SignalKey, maxAge: int)
    requires k in Keys(hs)
    ensures OneAfter(At(UpsertAll(s, hs, maxAge), k), hs, k, maxAge) == At(UpsertAll(s, hs, maxAge), k)
  {
    hide OneAfter, UpsertAll, KeyOf, Keys, DetectionsAfter;
    var once := OneAfter(At(s, k), hs, k, maxAge);
    UpsertAllAt(s, hs, k, maxAge);
    OneAfterIs(At(s, k), hs, k, maxAge);
    OneAfterIs(once, hs, k, maxAge);
    DetectionsTwice(DetectionsOf(At(s, k)), hs, k);
    LastHitDecides(At(s, k), once, hs, k, maxAge);
  }

  /** A second run on the same data changes no signal: it creates none and switches none off. */
  lemma SecondRunChangesNothing(s: Signals, hs: seq<Hit>, maxAge: int)
    ensures Run(Run(s, hs, maxAge), hs, maxAge) == Run(s, hs, maxAge)
    ensures Keys(hs) <= Run(s, hs, maxAge).Keys
    ensures Stale(UpsertAll(Run(s, hs, maxAge), hs, maxAge), Keys(hs)) == {}
  {
    hide UpsertAll, Keys, KeyOf, OneAfter;
    var once := Run(s, hs, maxAge);
    var up := UpsertAll(once, hs, maxAge);
    UpsertsReach(s, hs, maxAge);
    UpsertsReach(once, hs, maxAge);
    forall k | k in Keys(hs) ensures up[k] == once[k] {
      assert At(once, k) == At(UpsertAll(s, hs, maxAge), k);
      OneTwice(s, hs, k, maxAge);
      UpsertAllAt(once, hs, k, maxAge);
    }
    assert up == once;
  }

  // -------------------------------------------------- each match is its own signal

  // The table constraints: rule versions, record ids and a company's posting fingerprints.
  ghost predicate Unique(records: seq<Record>, rules: seq<Rule>, ps: seq<Posting>) {
    && (forall i, j :: 0 <= i < j < |records| ==> records[i].id != records[j].id)
    && (forall i, j :: 0 <= i < j < |rules| ==> rules[i].key != rules[j].key || rules[i].version != rules[j].version)
    && (forall i, j :: 0 <= i < j < |ps| ==> ps[i].fingerprint != ps[j].fingerprint)
  }

  ghost predicate OncePerKey(hs: seq<Hit>) {
    forall i, j :: 0 <= i < j < |hs| ==> KeyOf(hs[i]) != KeyOf(hs[j])
  }

  // Hits of one record, by some of the rules, on postings of the table.
  ghost predicate From(h: Hit, record: nat, rules: seq<Rule>, ps: seq<Posting>) {
    h.record.id == record && h.rule in rules
    && (h.m.posting.Some? ==> h.m.posting.value in ps && h.m.posting.value.record == record)
  }

  lemma {:induction false} PostingMatchesAreOf(ps: seq<Posting>, field: string, rule: Rule, done: set<string>, m: Match)
    requires m in PostingMatches(ps, field, rule, done)
    ensures m.posting.Some? && m.posting.value in ps
  {
    hide PostingTerms;
    var p := ps[0];
    assert ps == [p] + ps[1..];
    var terms := if p.fingerprint in done then [] else PostingTerms(p, field, rule);
    if m in PostingMatches(ps[1..], field, rule, if terms == [] then done else done + {p.fingerprint}) {
      PostingMatchesAreOf(ps[1..], field, rule, if terms == [] then done else done + {p.fingerprint}, m);
    }
  }

  lemma {:induction false} MatchesAreOf(record: Record, rule: Rule, fields: seq<string>, ps: seq<Posting>, done: set<string>, generic: bool, m: Match)
    requires m in RuleMatches(record, rule, fields, ps, done, generic) && m.posting.Some?
    ensures m.posting.value in ps
  {
    hide PostingMatches, RecordTerms, Fingerprints, IsJobField;
    if IsJobField(fields[0]) {
      var ms := PostingMatches(ps, fields[0], rule, done);
      if m in ms {
        PostingMatchesAreOf(ps, fields[0], rule, done, m);
      } else {
        MatchesAreOf(record, rule, fields[1..], ps, done + Fingerprints(ms), generic, m);
      }
    } else {
      var terms := if generic then [] else RecordTerms(record, fields[0], rule);
      MatchesAreOf(record, rule, fields[1..], ps, done, generic || terms != [], m);
    }
  }

  lemma RuleHitsAreFrom(record: Record, rule: Rule, ps: seq<Posting>, h: Hit)
    requires h in HitsOfRule(record, rule, MatchesOf(record, rule, ps))
    ensures From(h, record.id, [rule], ps) && h.rule == rule
  {
    hide RuleMatches;
    var ms := MatchesOf(record, rule, ps);
    var i :| 0 <= i < |ms| && h == Hit(rule, record, ms[i]);
    if ms[i].posting.Some? {
      MatchesAreOf(record, rule, rule.sourceFields, ActiveOf(record.id, ps), {}, false, ms[i]);
    }
  }

  lemma {:induction false} RecordHitsAreFrom(record: Record, rules: seq<Rule>, ps: seq<Posting>, h: Hit)
    requires h in HitsOfRecord(record, rules, ps)
    ensures From(h, record.id, rules, ps)
  {
    hide MatchesOf, HitsOfRule;
    assert rules == [rules[0]] + rules[1..];
    if h in HitsOfRule(record, rules[0], MatchesOf(record, rules[0], ps)) {
      RuleHitsAreFrom(record, rules[0], ps, h);
    } else {
      RecordHitsAreFrom(record, rules[1..], ps, h);
    }
  }

  lemma {:induction false} HitsAreFrom(records: seq<Record>, rules: seq<Rule>, ps: seq<Posting>, h: Hit)
    requires h in HitsOf(records, rules, ps)
    ensures h.record in records && From(h, h.record.id, rules, ps)
  {
    hide HitsOfRecord;
    assert records == [records[0]] + records[1..];
    if h in HitsOfRecord(records[0], rules, ps) {
      RecordHitsAreFrom(records[0], rules, ps, h);
      SameRecord(records[0], rules, ps, h);
    } else {
      HitsAreFrom(records[1..], rules, ps, h);
    }
  }

  lemma {:induction false} SameRecord(record: Record, rules: seq<Rule>, ps: seq<Posting>, h: Hit)
    requires h in HitsOfRecord(record, rules, ps)
    ensures h.record == record
  {
    hide MatchesOf;
    if h !in HitsOfRule(record, rules[0], MatchesOf(record, rules[0], ps)) {
      SameRecord(record, rules[1..], ps, h);
    }
  }

  lemma OncePerKeyAppend(xs: seq<Hit>, ys: seq<Hit>)
    requires OncePerKey(xs) && OncePerKey(ys)
    requires forall x, y :: x in xs && y in ys ==> KeyOf(x) != KeyOf(y)
    ensures OncePerKey(xs + ys)
  {
    hide KeyOf;
    var zs := xs + ys;
    forall i, j | 0 <= i < j < |zs| ensures KeyOf(zs[i]) != KeyOf(zs[j]) {
      if i < |xs| && j >= |xs| {
        assert zs[i] in xs && zs[j] in ys;
      }
    }
  }

  lemma RuleHitsOncePerKey(record: Record, rule: Rule, ps: seq<Posting>)
    ensures OncePerKey(HitsOfRule(record, rule, MatchesOf(record, rule, ps)))
  {
    hide RuleMatches;
    RuleMatchesOnce(record, rule, rule.sourceFields, ActiveOf(record.id, ps), {}, false);
  }

  lemma {:induction false} RecordHitsOncePerKey(record: Record, rules: seq<Rule>, ps: seq<Posting>)
    requires forall i, j :: 0 <= i < j < |rules| ==> rules[i].key != rules[j].key || rules[i].version != rules[j].version
    ensures OncePerKey(HitsOfRecord(record, rules, ps))
  {
    hide MatchesOf, HitsOfRule;
    if rules != [] {
      var xs, ys := HitsOfRule(record, rules[0], MatchesOf(record, rules[0], ps)), HitsOfRecord(record, rules[1..], ps);
      RuleHitsOncePerKey(record, rules[0], ps);
      RecordHitsOncePerKey(record, rules[1..], ps);
      forall x, y | x in xs && y in ys ensures KeyOf(x) != KeyOf(y) {
        RuleHitsAreFrom(record, rules[0], ps, x);
        RecordHitsAreFrom(record, rules[1..], ps, y);
        var i :| 0 <= i < |rules[1..]| && rules[1..][i] == y.rule;
        assert rules[i + 1] == y.rule;
      }
      OncePerKeyAppend(xs, ys);
    }
  }

  lemma PostingDecidesRecord(ps: seq<Posting>, p: Posting, q: Posting)
    requires forall i, j :: 0 <= i < j < |ps| ==> ps[i].fingerprint != ps[j].fingerprint
    requires p in ps && q in ps && p.fingerprint == q.fingerprint
    ensures p == q
  {
    var i :| 0 <= i < |ps| && ps[i] == p;
    var j :| 0 <= j < |ps| && ps[j] == q;
  }

  lemma UniqueTail(records: seq<Record>, rules: seq<Rule>, ps: seq<Posting>)
    requires Unique(records, rules, ps) && records != []
    ensures Unique(records[1..], rules, ps)
    ensures forall r :: r in records[1..] ==> r.id != records[0].id
  {
  }

  /** No two matches of a run fall on the same signal. */
  lemma {:induction false} HitsOncePerKey(records: seq<Record>, rules: seq<Rule>, ps: seq<Posting>)
    requires Unique(records, rules, ps)
    ensures OncePerKey(HitsOf(records, rules, ps))
  {
    hide HitsOfRecord, OncePerKey;
    if records == [] {
      NoHits();
    } else {
      var xs, ys := HitsOfRecord(records[0], rules, ps), HitsOf(records[1..], rules, ps);
      UniqueTail(records, rules, ps);
      RecordHitsOncePerKey(records[0], rules, ps);
      HitsOncePerKey(records[1..], rules, ps);
      forall x, y | x in xs && y in ys ensures KeyOf(x) != KeyOf(y) {
        RecordHitsAreFrom(records[0], rules, ps, x);
        HitsAreFrom(records[1..], rules, ps, y);
        if KeyOf(x) == KeyOf(y) && x.m.posting.Some? {
          PostingDecidesRecord(ps, x.m.posting.value, y.m.posting.value);
        }
      }
      OncePerKeyAppend(xs, ys);
    }
  }

  lemma NoHits()
    ensures OncePerKey([])
  {
  }

  lemma {:induction false} CountKeys(hs: seq<Hit>)
    requires OncePerKey(hs)
    ensures |Keys(hs)| == |hs|
  {
    hide KeyOf;
    if hs == [] {
      NoKeys();
    } else {
      var init := hs[..|hs| - 1];
      CountKeys(init);
      KeysInit(hs);
      assert KeyOf(hs[|hs| - 1]) !in Keys(init);
    }
  }

  /** `signals_matched` is the number of distinct signals seen. */
  lemma MatchedCountsSignals(records: seq<Record>, rules: seq<Rule>, ps: seq<Posting>)
    requires Unique(records, rules, ps)
    ensures |Keys(HitsOf(records, rules, ps))| == |HitsOf(records, rules, ps)|
  {
    hide HitsOf, OncePerKey, Keys;
    HitsOncePerKey(records, rules, ps);
    CountKeys(HitsOf(records, rules, ps));
  }

  /** A hit whose signal no other hit of the run falls on decides its row. */
  lemma OnlyHitDecides(s: Signals, hs: seq<Hit>, h: Hit, maxAge: int)
    requires OncePerKey(hs) && h in hs
    ensures KeyOf(h) in Run(s, hs, maxAge)
    ensures exists prior :: Run(s, hs, maxAge)[KeyOf(h)] == Detected(prior, h, maxAge)
  {
    hide KeyOf, Detected, Keys, UpsertAll;
    UpsertsReach(s, hs, maxAge);
    HitInKeys(hs, h);
    LastUpsert(s, hs, h, maxAge);
  }

  lemma HitInKeys(hs: seq<Hit>, h: Hit)
    requires h in hs
    ensures KeyOf(h) in Keys(hs)
  {
    hide KeyOf;
  }

  lemma {:induction false} LastUpsert(s: Signals, hs: seq<Hit>, h: Hit, maxAge: int)
    requires OncePerKey(hs) && h in hs
    ensures KeyOf(h) in UpsertAll(s, hs, maxAge)
    ensures exists prior :: UpsertAll(s, hs, maxAge)[KeyOf(h)] == Detected(prior, h, maxAge)
  {
    hide KeyOf, Detected;
    var n := |hs| - 1;
    if hs[n] == h {
      assert UpsertAll(s, hs, maxAge)[KeyOf(h)] == Detected(At(UpsertAll(s, hs[..n], maxAge), KeyOf(h)), h, maxAge);
    } else {
      var i :| 0 <= i < |hs| && hs[i] == h;
      assert hs[..n][i] == h;
      LastUpsert(s, hs[..n], h, maxAge);
    }
  }

  lemma {:induction false} RefreshTwice(ps: seq<Posting>, today: Day, maxAge: int)
    ensures Refresh(Refresh(ps, today, maxAge), today, maxAge) == Refresh(ps, today, maxAge)
  {
  }

  lemma RefreshKeepsUnique(records: seq<Record>, rules: seq<Rule>, ps: seq<Posting>, today: Day, maxAge: int)
    requires Unique(records, rules, ps)
    ensures Unique(records, rules, Refresh(ps, today, maxAge))
  {
  }
}
