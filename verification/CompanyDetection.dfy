/** `detect_company_signals` over the rows of one company: the loops of a detection run, and what they leave. */
module CompanyDetection {
  import opened Basics
  import opened Detector
  import opened Detection
  import opened GroundedSignals

  datatype Stats = Stats(recordsScanned: nat, rulesEvaluated: nat, matched: nat, created: nat, deactivated: nat)

  lemma UpsertAllNext(s: Signals, hs: seq<Hit>, h: Hit, maxAge: int)
    ensures UpsertAll(s, hs + [h], maxAge) == Upsert(UpsertAll(s, hs, maxAge), h, maxAge)
  {
    assert (hs + [h])[..|hs|] == hs;
  }

  // What the loops have done so far.
  ghost predicate Upserted(s: Signals, start: Signals, hs: seq<Hit>, seen: set<SignalKey>, created: nat, maxAge: int) {
    s == UpsertAll(start, hs, maxAge) && seen == Keys(hs) && created == |seen - start.Keys|
  }

  lemma UpsertedNext(s: Signals, start: Signals, hs: seq<Hit>, seen: set<SignalKey>, created: nat, maxAge: int, h: Hit)
    requires Upserted(s, start, hs, seen, created, maxAge)
    ensures Upserted(Upsert(s, h, maxAge), start, hs + [h], seen + {KeyOf(h)}, created + (if KeyOf(h) in s then 0 else 1), maxAge)
  {
    hide UpsertAll, Keys, KeyOf, Detected, Upsert;
    UpsertAllNext(start, hs, h, maxAge);
    KeysNext(hs, h);
    UpsertsReach(start, hs, maxAge);
    NewOnes(seen, start.Keys, KeyOf(h));
  }

  lemma NewOnes(seen: set<SignalKey>, known: set<SignalKey>, k: SignalKey)
    ensures |seen + {k} - known| == |seen - known| + if k in known + seen then 0 else 1
  {
    if k in known + seen {
      assert seen + {k} - known == seen - known;
    } else {
      assert seen + {k} - known == (seen - known) + {k};
    }
  }

  // Exactly the active postings past their last day, or published more than the maximum age ago, are switched off.
  ghost predicate OnlyOutdatedEnd(before: seq<Posting>, after: seq<Posting>, today: Day, maxAge: int) {
    && |after| == |before|
    && forall i :: 0 <= i < |after| ==>
         && after[i] == before[i].(active := after[i].active)
         && (after[i].active <==>
               && before[i].active
               && (before[i].validThrough.Some? ==> before[i].validThrough.value >= today)
               && (before[i].publishedOn.Some? ==> before[i].publishedOn.value >= today - Max(1, maxAge)))
  }

  // An active signal the detector generated.
  ghost predicate IsOn(s: Signals, k: SignalKey) {
    k in s && s[k].active && s[k].detections != map[]
  }

  // Every match has the row of its rule, its record and its posting.
  ghost predicate AreRowsOf(s: Signals, records: seq<Record>, rules: seq<Rule>, ps: seq<Posting>, maxAge: int) {
    && (forall record, rule, p :: Pair(record, rule, records, rules) && p in ps && p.active && p.record == record.id && PostingCarries(p, rule) ==>
          var k := SignalKey(rule.signalType, rule.key, rule.version, OfPosting(p.fingerprint));
          k in s && PostingRow(s[k], record, rule, p, maxAge))
    && (forall record, rule :: Pair(record, rule, records, rules) && RecordCarries(record, rule) ==>
          var k := SignalKey(rule.signalType, rule.key, rule.version, OfRecord(record.id));
          k in s && RecordRow(s[k], record, rule))
  }

  // A posting the table held, active, on or before its last day and young enough, with the fingerprint of the evidence.
  ghost predicate RestsOnCurrent(k: SignalKey, before: seq<Posting>, today: Day, maxAge: int) {
    exists i :: 0 <= i < |before| && k.evidence == OfPosting(before[i].fingerprint) && before[i].active
      && (before[i].validThrough.Some? ==> before[i].validThrough.value >= today)
      && (before[i].publishedOn.Some? ==> before[i].publishedOn.value >= today - Max(1, maxAge))
  }

  lemma GroundedOnCurrent(records: seq<Record>, rules: seq<Rule>, before: seq<Posting>, ps: seq<Posting>, today: Day, maxAge: int, k: SignalKey)
    requires OnlyOutdatedEnd(before, ps, today, maxAge) && Grounded(records, rules, ps, k) && k.evidence.OfPosting?
    ensures RestsOnCurrent(k, before, today, maxAge)
  {
    hide PostingCarries, Pair;
    var record, rule :| Pair(record, rule, records, rules)
      && k.signalType == rule.signalType && k.rule == rule.key && k.version == rule.version && Backs(record, rule, ps, k.evidence);
    var p :| p in ps && p.active && p.record == record.id && p.fingerprint == k.evidence.fingerprint && PostingCarries(p, rule);
    var i :| 0 <= i < |ps| && ps[i] == p;
    assert before[i].fingerprint == p.fingerprint;
  }

  lemma RefreshEndsOutdated(ps: seq<Posting>, today: Day, maxAge: int)
    ensures OnlyOutdatedEnd(ps, Refresh(ps, today, maxAge), today, maxAge)
  {
  }

  lemma RunLeavesRows(s: Signals, records: seq<Record>, rules: seq<Rule>, ps: seq<Posting>, maxAge: int)
    requires Unique(records, rules, ps)
    ensures AreRowsOf(Run(s, HitsOf(records, rules, ps), maxAge), records, rules, ps, maxAge)
  {
    hide Run, HitsOf, PostingCarries, RecordCarries, PostingRow, RecordRow, Unique, Pair;
    forall record, rule, p | Pair(record, rule, records, rules) && p in ps && p.active && p.record == record.id && PostingCarries(p, rule)
      ensures var k, after := SignalKey(rule.signalType, rule.key, rule.version, OfPosting(p.fingerprint)), Run(s, HitsOf(records, rules, ps), maxAge);
        k in after && PostingRow(after[k], record, rule, p, maxAge)
    {
      PostingSignalRow(s, records, rules, ps, maxAge, record, rule, p);
    }
    forall record, rule | Pair(record, rule, records, rules) && RecordCarries(record, rule)
      ensures var k, after := SignalKey(rule.signalType, rule.key, rule.version, OfRecord(record.id)), Run(s, HitsOf(records, rules, ps), maxAge);
        k in after && RecordRow(after[k], record, rule)
    {
      RecordSignalRow(s, records, rules, ps, maxAge, record, rule);
    }
  }

  // The generated signals that are on without grounds.
  ghost function Ended(s: Signals, records: seq<Record>, rules: seq<Rule>, ps: seq<Posting>): set<SignalKey> {
    set k | k in s && IsOn(s, k) && !Grounded(records, rules, ps, k)
  }

  // No detection that a signal once had is taken from it.
  ghost predicate KeepsDetections(s: Signals, after: Signals) {
    forall k, d :: k in s && d in s[k].detections ==> k in after && d in after[k].detections
  }

  lemma {:induction false} UpsertsKeepDetections(s: Signals, hs: seq<Hit>, maxAge: int)
    ensures KeepsDetections(s, UpsertAll(s, hs, maxAge))
  {
    hide KeyOf, Dates, DetectionKeyOf;
    if hs != [] {
      UpsertsKeepDetections(s, hs[..|hs| - 1], maxAge);
    }
  }

  lemma RunKeepsDetections(s: Signals, hs: seq<Hit>, maxAge: int)
    ensures KeepsDetections(s, Run(s, hs, maxAge))
  {
    hide UpsertAll, Keys;
    UpsertsKeepDetections(s, hs, maxAge);
  }

  // Generated signals are on exactly when grounded, on current postings only; the others end, hand-made ones stay;
  // every match has its row and detections are only added or renewed.
  ghost predicate Settles(before: seq<Posting>, s: Signals, after: Signals, records: seq<Record>, rules: seq<Rule>,
                          ps: seq<Posting>, today: Day, maxAge: int) {
    && (forall k :: IsOn(after, k) <==> Grounded(records, rules, ps, k))
    && (forall k :: IsOn(after, k) && k.evidence.OfPosting? ==> RestsOnCurrent(k, before, today, maxAge))
    && (forall k :: k in s && !Grounded(records, rules, ps, k) ==>
          k in after && after[k] == if s[k].detections == map[] then s[k] else s[k].(active := false))
    && (Unique(records, rules, ps) ==> AreRowsOf(after, records, rules, ps, maxAge))
    && KeepsDetections(s, after)
  }

  lemma RunSettles(before: seq<Posting>, s: Signals, records: seq<Record>, rules: seq<Rule>, ps: seq<Posting>, today: Day, maxAge: int)
    requires OnlyOutdatedEnd(before, ps, today, maxAge)
    ensures var hits := HitsOf(records, rules, ps);
      && Settles(before, s, Run(s, hits, maxAge), records, rules, ps, today, maxAge)
      && Run(s, hits, maxAge).Keys - s.Keys == Keys(hits) - s.Keys
      && Stale(UpsertAll(s, hits, maxAge), Keys(hits)) == Ended(s, records, rules, ps)
  {
    hide Run, HitsOf, Keys, Stale, UpsertAll, Ended, IsOn, Grounded, RestsOnCurrent, AreRowsOf, Unique, OnlyOutdatedEnd, KeepsDetections;
    RunDecidesSignals(s, records, rules, ps, maxAge);
    RunKeepsDetections(s, HitsOf(records, rules, ps), maxAge);
    if Unique(records, rules, ps) {
      RunLeavesRows(s, records, rules, ps, maxAge);
    }
    forall k | Grounded(records, rules, ps, k) && k.evidence.OfPosting? ensures RestsOnCurrent(k, before, today, maxAge) {
      GroundedOnCurrent(records, rules, before, ps, today, maxAge, k);
    }
  }

  // Every signal after a run: on, off or untouched.
  lemma RunDecidesSignals(s: Signals, records: seq<Record>, rules: seq<Rule>, ps: seq<Posting>, maxAge: int)
    ensures var hits, after := HitsOf(records, rules, ps), Run(s, HitsOf(records, rules, ps), maxAge);
      && (forall k :: IsOn(after, k) <==> Grounded(records, rules, ps, k))
      && (forall k :: k in s && !Grounded(records, rules, ps, k) ==>
            k in after && after[k] == if s[k].detections == map[] then s[k] else s[k].(active := false))
      && after.Keys - s.Keys == Keys(hits) - s.Keys
      && Stale(UpsertAll(s, hits, maxAge), Keys(hits)) == Ended(s, records, rules, ps)
  {
    hide HitsOf, Keys, UpsertAll, Grounded;
    var hits := HitsOf(records, rules, ps);
    UpsertsReach(s, hits, maxAge);
    forall k ensures k in Keys(hits) <==> Grounded(records, rules, ps, k) {
      KeysAreGrounded(records, rules, ps, k);
    }
  }

  class CompanySignals {
    var postings: seq<Posting>
    var signals: Signals

    constructor (postings: seq<Posting>)
      ensures this.postings == postings && signals == map[]
    {
      this.postings := postings;
      signals := map[];
    }

    method UpsertSignal(h: Hit, maxAge: int) returns (created: bool)
      modifies this`signals
      ensures signals == Upsert(old(signals), h, maxAge) && (created <==> KeyOf(h) !in old(signals))
    {
      var key, dates := KeyOf(h), Dates(h, maxAge);
      created := key !in signals;
      var detections := if created then map[] else signals[key].detections;
      signals := signals[key := Signal(true, h.record.id, dates.0, dates.1, detections)];
      signals := signals[key := signals[key].(detections := detections[DetectionKeyOf(h) := h.m.terms])];
    }

    method DetectInRecord(record: Record, rules: seq<Rule>, maxAge: int, before: set<SignalKey>, countBefore: nat,
                          ghost start: Signals, ghost done: seq<Hit>)
        returns (seen: set<SignalKey>, matched: nat, created: nat, ghost all: seq<Hit>)
      requires Upserted(signals, start, done, before, countBefore, maxAge)
      modifies this`signals
      ensures all == done + HitsOfRecord(record, rules, postings)
      ensures Upserted(signals, start, all, seen, created, maxAge) && matched == |HitsOfRecord(record, rules, postings)|
    {
      hide HitsOfRule, MatchesOf, Upserted, KeyOf, Detector.RuleMatches;
      seen, matched, created, all := before, 0, countBefore, done;
      var active := ActiveOf(record.id, postings);
      assert rules[0..] == rules;
      for i := 0 to |rules|
        invariant done + HitsOfRecord(record, rules, postings) == all + HitsOfRecord(record, rules[i..], postings)
        invariant matched == |all| - |done|
        invariant Upserted(signals, start, all, seen, created, maxAge)
      {
        var rule := rules[i];
        assert rules[i..][0] == rule && rules[i..][1..] == rules[i + 1..];
        var ms := MatchRule(record, rule, active);
        ghost var hits := HitsOfRule(record, rule, MatchesOf(record, rule, postings));
        assert ms == MatchesOf(record, rule, postings) by { MatchesOfIs(record, rule, postings); }
        ghost var base := all;
        for j := 0 to |ms|
          invariant all == base + hits[..j] && matched == |all| - |done|
          invariant Upserted(signals, start, all, seen, created, maxAge)
        {
          var h := Hit(rule, record, ms[j]);
          UpsertedNext(signals, start, all, seen, created, maxAge, h);
          var isNew := UpsertSignal(h, maxAge);
          all := all + [h];
          seen := seen + {KeyOf(h)};
          matched := matched + 1;
          created := created + if isNew then 1 else 0;
        }
        assert hits[..|ms|] == hits;
      }
      assert rules[|rules|..] == [];
    }

    /**
     `detect_company_signals`.  A posting past its last day, or published too long ago, ends; then a generated
     signal is on exactly when it is grounded in a record, a rule and, if it rests on a posting, one that
     neither has ended before nor ends now.
     */
    method DetectCompanySignals(records: seq<Record>, rules: seq<Rule>, today: Day, maxAge: int) returns (stats: Stats)
      modifies this
      ensures OnlyOutdatedEnd(old(postings), postings, today, maxAge)
      ensures Settles(old(postings), old(signals), signals, records, rules, postings, today, maxAge)
      ensures stats.created == |signals.Keys - old(signals).Keys|
      ensures stats.deactivated == |Ended(old(signals), records, rules, postings)|
      ensures postings == Refresh(old(postings), today, maxAge)
      ensures stats.recordsScanned == |records| && stats.rulesEvaluated == |records| * |rules|
      ensures var hits := HitsOf(records, rules, postings);
        && signals == Run(old(signals), hits, maxAge)
        && stats.matched == |hits| && stats.created == |Keys(hits) - old(signals).Keys|
        && stats.deactivated == |Stale(UpsertAll(old(signals), hits, maxAge), Keys(hits))|
    {
      hide HitsOf, HitsOfRecord, Upserted, UpsertAll, Keys, Refresh, SwitchOff, Stale, OnlyOutdatedEnd, Settles, Ended;
      postings := Refresh(postings, today, maxAge);
      ghost var start := signals;
      ghost var all: seq<Hit> := [];
      var seen, matched, created, evaluated := {}, 0, 0, 0;
      NothingUpserted(signals, maxAge);
      assert records[0..] == records;
      for i := 0 to |records|
        invariant postings == Refresh(old(postings), today, maxAge)
        invariant HitsOf(records, rules, postings) == all + HitsOf(records[i..], rules, postings)
        invariant matched == |all| && evaluated == i * |rules|
        invariant Upserted(signals, start, all, seen, created, maxAge)
      {
        HitsNext(all, records, i, rules, postings);
        var more;
        seen, more, created, all := DetectInRecord(records[i], rules, maxAge, seen, created, start, all);
        matched := matched + more;
        evaluated := evaluated + |rules|;
        assert (i + 1) * |rules| == i * |rules| + |rules|;
      }
      NoHitsLeft(all, records, rules, postings);
      UpsertedIs(signals, start, all, seen, created, maxAge);
      RefreshEndsOutdated(old(postings), today, maxAge);
      RunSettles(old(postings), start, records, rules, postings, today, maxAge);
      var deactivated := SwitchOffStale(seen);
      stats := Stats(|records|, evaluated, matched, created, deactivated);
    }

    method SwitchOffStale(seen: set<SignalKey>) returns (count: nat)
      modifies this`signals
      ensures signals == SwitchOff(old(signals), seen) && count == |Stale(old(signals), seen)|
    {
      var stale := set k | k in signals && signals[k].detections != map[] && k !in seen && signals[k].active;
      signals := map k | k in signals :: if k in stale then signals[k].(active := false) else signals[k];
      return |stale|;
    }
  }

  lemma MatchesOfIs(record: Record, rule: Rule, ps: seq<Posting>)
    ensures MatchesOf(record, rule, ps) == RuleMatches(record, rule, rule.sourceFields, ActiveOf(record.id, ps), {}, false)
  {
  }

  lemma HitsNext(all: seq<Hit>, records: seq<Record>, i: nat, rules: seq<Rule>, ps: seq<Posting>)
    requires i < |records|
    ensures all + HitsOf(records[i..], rules, ps) == (all + HitsOfRecord(records[i], rules, ps)) + HitsOf(records[i + 1..], rules, ps)
  {
    hide HitsOfRecord;
    assert records[i..][0] == records[i] && records[i..][1..] == records[i + 1..];
  }

  lemma NoHitsLeft(all: seq<Hit>, records: seq<Record>, rules: seq<Rule>, ps: seq<Posting>)
    ensures all + HitsOf(records[|records|..], rules, ps) == all
  {
    assert records[|records|..] == [] && HitsOf([], rules, ps) == [];
  }

  lemma NothingUpserted(s: Signals, maxAge: int)
    ensures Upserted(s, s, [], {}, 0, maxAge)
  {
    NoKeys();
    assert {} - s.Keys == {};
  }

  lemma UpsertedIs(s: Signals, start: Signals, hs: seq<Hit>, seen: set<SignalKey>, created: nat, maxAge: int)
    requires Upserted(s, start, hs, seen, created, maxAge)
    ensures s == UpsertAll(start, hs, maxAge) && seen == Keys(hs) && created == |seen - start.Keys|
  {
  }

  /** The same company detected twice on the same day: nothing created, nothing switched off. */
  method DetectTwice(company: CompanySignals, records: seq<Record>, rules: seq<Rule>, today: Day, maxAge: int) returns (second: Stats)
    requires Unique(records, rules, company.postings)
    modifies company
    ensures second.created == 0 && second.deactivated == 0
    ensures company.signals == Run(old(company.signals), HitsOf(records, rules, company.postings), maxAge)
    ensures second.matched == |Keys(HitsOf(records, rules, company.postings))|
  {
    hide Run, HitsOf, UpsertAll, Keys, Stale;
    ghost var s, ps := company.signals, company.postings;
    var first := company.DetectCompanySignals(records, rules, today, maxAge);
    ghost var hits := HitsOf(records, rules, company.postings);
    RefreshTwice(ps, today, maxAge);
    SecondRunChangesNothing(s, hits, maxAge);
    RefreshKeepsUnique(records, rules, ps, today, maxAge);
    MatchedCountsSignals(records, rules, company.postings);
    second := company.DetectCompanySignals(records, rules, today, maxAge);
    assert Keys(hits) - Run(s, hits, maxAge).Keys == {};
  }
}
