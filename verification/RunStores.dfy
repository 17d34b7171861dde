/** What a run that did not fail leaves in the tables, read off its files: its candidates, their records and their columns. */
module RunStores {
  import opened Basics
  import opened Establishments
  import opened Complements
  import opened Ingestion
  import opened EstablishmentScan
  import opened ComplementJoin

  // Row i is the last of the matches on company c.
  ghost predicate IsLastOf(found: seq<Establishment>, i: nat, c: Cnpj) {
    i < |found| && found[i].Cnpj() == c && forall j :: i < j < |found| ==> found[j].Cnpj() != c
  }

  ghost predicate IsMatched(found: seq<Establishment>, c: Cnpj) {
    exists i :: 0 <= i < |found| && found[i].Cnpj() == c
  }

  // Every match is a result, of a new company if the company was unknown; nothing else changes.
  ghost predicate ResultsStored(before: Db, after: Db, run: RunId, found: seq<Establishment>) {
    && (forall k :: k in after.results <==> k in before.results || (k.0 == run && IsMatched(found, k.1)))
    && (forall k :: k in after.results ==> after.results[k] == if k in before.results then before.results[k] else k.1 !in before.companies)
  }

  // Every match is a linked candidate that carries its company's last row; no other candidate changes.
  ghost predicate CandidatesStored(before: Db, after: Db, run: RunId, found: seq<Establishment>) {
    && (forall k :: k in after.candidates <==> k in before.candidates || (k.0 == run && IsMatched(found, k.1)))
    && (forall i :: 0 <= i < |found| && IsLastOf(found, i, found[i].Cnpj()) ==>
          (run, found[i].Cnpj()) in after.candidates
          && after.candidates[(run, found[i].Cnpj())] == Candidate(found[i].cnpjBasico, found[i], Some(found[i].Cnpj())))
    && (forall k :: k in before.candidates && !(k.0 == run && IsMatched(found, k.1)) ==>
          k in after.candidates && after.candidates[k] == before.candidates[k])
  }

  // The payload of a candidate is the first record of its root in the files, or what it was.
  ghost predicate FirstStored(before: map<(RunId, Cnpj), Record>, after: map<(RunId, Cnpj), Record>, rows: seq<Row>,
                              k: (RunId, Cnpj), basico: string) {
    match FirstRecord(rows, basico)
    case Some(r) => k in after && after[k] == r
    case None => (k in after <==> k in before) && (k in before ==> after[k] == before[k])
  }

  // The columns a company record fills.
  ghost predicate HoldsRecord(registry: map<Cnpj, Fields>, c: Cnpj, r: Record)
    requires |r| == 7
  {
    && Reached(registry, c, "legal_name", r[1]) && Reached(registry, c, "legal_nature_code", r[2])
    && Reached(registry, c, "size_code", r[5])
    && ShareCapital(r[4]).Ok? && Reached(registry, c, "share_capital", ShareCapital(r[4]).value)
  }

  // Both payloads of every candidate of the run, and the columns of its company.
  ghost predicate RecordsStored(before: Db, after: Db, run: RunId, companyRows: seq<Row>, simplesRows: seq<Row>) {
    forall c :: (run, c) in after.candidates ==>
      var basico := after.candidates[(run, c)].basico;
      && FirstStored(before.companyPayloads, after.companyPayloads, companyRows, (run, c), basico)
      && FirstStored(before.simplesPayloads, after.simplesPayloads, simplesRows, (run, c), basico)
      && (FirstRecord(companyRows, basico).Some? && |FirstRecord(companyRows, basico).value| == 7 ==>
            HoldsRecord(after.registry, c, FirstRecord(companyRows, basico).value))
  }

  // --------------------------------------------------------------- the matches

  lemma {:induction false} MatchesAreStored(db: Db, run: RunId, found: seq<Establishment>)
    ensures ResultsStored(db, ApplyAll(db, run, RowOps(found)), run, found)
    ensures CandidatesStored(db, ApplyAll(db, run, RowOps(found)), run, found)
    decreases |found|
  {
    hide Apply, ApplyAll;
    if found == [] {
      ApplyNoRows(db, run);
    } else {
      hide ResultsStored, CandidatesStored, IsMatched;
      var init, e := found[..|found| - 1], found[|found| - 1];
      MatchesAreStored(db, run, init);
      assert found == init + [e];
      ApplyOneRow(db, run, init, e);
      CompaniesGrow(db, run, init);
      OneMoreResult(db, ApplyAll(db, run, RowOps(init)), run, init, e);
      OneMoreCandidate(db, ApplyAll(db, run, RowOps(init)), run, init, e);
    }
  }

  lemma {:induction false} CompaniesGrow(db: Db, run: RunId, found: seq<Establishment>)
    ensures forall c :: c in ApplyAll(db, run, RowOps(found)).companies <==> c in db.companies || IsMatched(found, c)
    decreases |found|
  {
    hide AfterRegistry, AfterCnaes, AfterRecords, AfterResults, AfterCandidates, CanonicalFields;
    if found == [] {
      ApplyNoRows(db, run);
    } else {
      var init, e := found[..|found| - 1], found[|found| - 1];
      CompaniesGrow(db, run, init);
      assert found == init + [e];
      ApplyOneRow(db, run, init, e);
      MatchedNext(init, e);
    }
  }

  lemma MatchedNext(found: seq<Establishment>, e: Establishment)
    ensures forall c :: IsMatched(found + [e], c) <==> IsMatched(found, c) || c == e.Cnpj()
  {
    var xs := found + [e];
    forall c ensures IsMatched(xs, c) <==> IsMatched(found, c) || c == e.Cnpj() {
      if IsMatched(found, c) {
        var i :| 0 <= i < |found| && found[i].Cnpj() == c;
        assert xs[i].Cnpj() == c;
      }
      assert xs[|found|] == e;
    }
  }

  lemma OneMoreResult(db: Db, mid: Db, run: RunId, found: seq<Establishment>, e: Establishment)
    requires ResultsStored(db, mid, run, found)
    requires forall c :: c in mid.companies <==> c in db.companies || IsMatched(found, c)
    ensures ResultsStored(db, Apply(mid, run, RowOp(e)), run, found + [e])
  {
    hide AfterRegistry, AfterCnaes, AfterRecords, AfterCompanies, AfterCandidates, IsMatched;
    MatchedNext(found, e);
  }

  lemma OneMoreCandidate(db: Db, mid: Db, run: RunId, found: seq<Establishment>, e: Establishment)
    requires CandidatesStored(db, mid, run, found)
    ensures CandidatesStored(db, Apply(mid, run, RowOp(e)), run, found + [e])
  {
    hide AfterRegistry, AfterCnaes, AfterRecords, AfterCompanies, AfterResults, IsMatched, IsLastOf;
    MatchedNext(found, e);
    var xs, after := found + [e], Apply(mid, run, RowOp(e));
    forall i | 0 <= i < |xs| && IsLastOf(xs, i, xs[i].Cnpj())
      ensures (run, xs[i].Cnpj()) in after.candidates
      ensures after.candidates[(run, xs[i].Cnpj())] == Candidate(xs[i].cnpjBasico, xs[i], Some(xs[i].Cnpj()))
    {
      if i < |found| {
        LastStays(found, e, i);
      }
    }
  }

  lemma LastStays(found: seq<Establishment>, e: Establishment, i: nat)
    requires i < |found| && IsLastOf(found + [e], i, found[i].Cnpj())
    ensures IsLastOf(found, i, found[i].Cnpj()) && found[i].Cnpj() != e.Cnpj()
  {
    var xs := found + [e];
    assert xs[|found|] == e;
    assert forall j :: 0 <= j < |found| ==> xs[j] == found[j];
  }

  // --------------------------------------------------------------- the records

  // Transactions of one kind only.
  ghost predicate OfKind(kind: Kind, ops: seq<Op>) {
    forall x :: x in ops ==> if kind == Companies then IsCompanyOp(x) else x.SimplesOp?
  }

  // A company record with the columns it fills.
  ghost predicate IsCompanyOp(x: Op) {
    x.CompanyOp? && |x.record| == COMPLEMENT_COLUMN_COUNT && CompanyFields(x.record) == Some(x.fields)
  }

  lemma {:induction false} AttachIsOfKind(kind: Kind, cs: seq<Cnpj>, r: Record)
    ensures OfKind(kind, Attach(kind, cs, r).ops)
  {
    hide ShareCapital, CapitalFits, NoNulIn;
    if cs != [] {
      AttachIsOfKind(kind, cs[1..], r);
    }
  }

  lemma {:induction false} AttachAllIsOfKind(kind: Kind, records: seq<Record>, listed: seq<Staging>)
    requires FullRecords(records)
    ensures OfKind(kind, AttachAll(kind, records, listed).ops)
  {
    hide Attach, Group, IsCompanyOp;
    if records != [] {
      AttachIsOfKind(kind, Group(listed, records[0][0]), records[0]);
      AttachAllIsOfKind(kind, records[1..], listed);
    }
  }

  lemma JoinIsOfKind(kind: Kind, files: seq<seq<Row>>, listed: seq<Staging>)
    ensures OfKind(kind, JoinOf(kind, files, listed).work.ops)
  {
    hide AttachAll, ScanRows, IsCompanyOp;
    ScanShape(Flat(files), Roots(listed));
    AttachAllIsOfKind(kind, ScanRows(Flat(files), Roots(listed)).records, listed);
  }

  lemma {:induction false} OtherKindAttachesNothing(kind: Kind, ops: seq<Op>, c: Cnpj)
    requires forall x :: x in ops ==> if kind == Companies then !x.CompanyOp? else !x.SimplesOp?
    ensures LastRecord(kind, ops, c) == None
  {
    if ops != [] {
      OtherKindAttachesNothing(kind, ops[1..], c);
    }
  }

  // Joins change neither candidates nor results.
  lemma {:induction false} JoinKeepsMatches(db: Db, run: RunId, ops: seq<Op>)
    requires forall x :: x in ops ==> !x.RowOp?
    ensures ApplyAll(db, run, ops).candidates == db.candidates && ApplyAll(db, run, ops).results == db.results
    decreases |ops|
  {
    hide AfterRegistry, AfterCnaes, AfterRecords, AfterCompanies;
    if ops != [] {
      JoinKeepsMatches(Apply(db, run, ops[0]), run, ops[1..]);
    }
  }

  lemma {:induction false} OthersKeepRegistry(db: Db, run: RunId, ops: seq<Op>, c: Cnpj)
    requires forall x :: x in ops ==> !x.CompanyOp? || x.cnpj != c
    ensures forall f :: FieldOf(ApplyAll(db, run, ops).registry, c, f) == FieldOf(db.registry, c, f)
    decreases |ops|
  {
    hide AfterCnaes, AfterRecords, AfterCompanies, AfterResults, AfterCandidates;
    if ops != [] {
      OthersKeepRegistry(Apply(db, run, ops[0]), run, ops[1..], c);
    }
  }

  lemma {:induction false} NoRecordNoOp(ops: seq<Op>, c: Cnpj)
    requires LastRecord(Companies, ops, c) == None
    ensures forall x :: x in ops ==> !x.CompanyOp? || x.cnpj != c
  {
    if ops != [] {
      NoRecordNoOp(ops[1..], c);
    }
  }

  // The last record attached to a company is in its columns.
  lemma {:induction false} LastRecordFillsColumns(db: Db, run: RunId, ops: seq<Op>, c: Cnpj, r: Record)
    requires OfKind(Companies, ops) && LastRecord(Companies, ops, c) == Some(r)
    ensures |r| == 7 && HoldsRecord(ApplyAll(db, run, ops).registry, c, r)
    decreases |ops|
  {
    hide AfterCnaes, AfterRecords, AfterCompanies, AfterResults, AfterCandidates, AfterRegistry, CompanyFields, HoldsRecord;
    var next := Apply(db, run, ops[0]);
    assert OfKind(Companies, ops[1..]);
    if LastRecord(Companies, ops[1..], c).Some? {
      LastRecordFillsColumns(next, run, ops[1..], c, r);
    } else {
      assert ops[0] in ops;
      RecordReachesCompany(db, run, c, r);
      assert HoldsRecord(next.registry, c, r) by { ReachedIsHeld(next.registry, c, r); }
      NoRecordNoOp(ops[1..], c);
      OthersKeepRegistry(next, run, ops[1..], c);
      SameColumnsHold(next.registry, ApplyAll(next, run, ops[1..]).registry, c, r);
    }
  }

  lemma ReachedIsHeld(m: map<Cnpj, Fields>, c: Cnpj, r: Record)
    requires |r| == 7 && Reached(m, c, "legal_name", r[1]) && Reached(m, c, "legal_nature_code", r[2]) && Reached(m, c, "size_code", r[5])
    requires ShareCapital(r[4]).Ok? && Reached(m, c, "share_capital", ShareCapital(r[4]).value)
    ensures HoldsRecord(m, c, r)
  {
  }

  lemma SameColumnsHold(m: map<Cnpj, Fields>, n: map<Cnpj, Fields>, c: Cnpj, r: Record)
    requires |r| == 7 && HoldsRecord(m, c, r) && forall f :: FieldOf(n, c, f) == FieldOf(m, c, f)
    ensures HoldsRecord(n, c, r)
  {
    hide ShareCapital, FieldOf;
  }

  // ------------------------------------------------------------------ the whole run

  ghost predicate Succeeds(kind: Kind, files: seq<seq<Row>>, listed: seq<Staging>) {
    !JoinOf(kind, files, listed).Failed()
  }

  // What the two joins leave, from the tables after the rows.
  lemma JoinsStore(mid: Db, run: RunId, companyFiles: seq<seq<Row>>, simplesFiles: seq<seq<Row>>, c: Cnpj)
    requires (run, c) in mid.candidates
    requires var listed := Listed(mid.candidates, run); Succeeds(Companies, companyFiles, listed) && Succeeds(Simples, simplesFiles, listed)
    ensures var listed := Listed(mid.candidates, run); var basico := mid.candidates[(run, c)].basico;
      var joined := ApplyAll(mid, run, JoinOf(Companies, companyFiles, listed).work.ops);
      var after := ApplyAll(joined, run, JoinOf(Simples, simplesFiles, listed).work.ops);
      && FirstStored(mid.companyPayloads, after.companyPayloads, Flat(companyFiles), (run, c), basico)
      && FirstStored(mid.simplesPayloads, after.simplesPayloads, Flat(simplesFiles), (run, c), basico)
      && (FirstRecord(Flat(companyFiles), basico).Some? ==>
            |FirstRecord(Flat(companyFiles), basico).value| == 7 && HoldsRecord(after.registry, c, FirstRecord(Flat(companyFiles), basico).value))
  {
    hide JoinOf, Listed, Flat, FirstRecord, ApplyAll, OfKind, HoldsRecord, LastRecord;
    var listed := Listed(mid.candidates, run);
    var x := Staging(c, mid.candidates[(run, c)].basico);
    ListingIsTheRun(mid.candidates, run);
    assert x in listed;
    var companies, simples := JoinOf(Companies, companyFiles, listed).work.ops, JoinOf(Simples, simplesFiles, listed).work.ops;
    var joined := ApplyAll(mid, run, companies);
    JoinGivesFirstRecord(mid, run, Companies, companyFiles, listed, x);
    JoinGivesFirstRecord(joined, run, Simples, simplesFiles, listed, x);
    JoinIsOfKind(Companies, companyFiles, listed);
    JoinIsOfKind(Simples, simplesFiles, listed);
    KindsKeepApart(mid, joined, run, companies, simples, c);
    JoinEndsWithFirst(mid, run, companyFiles, listed, x);
    var r := FirstRecord(Flat(companyFiles), x.basico);
    if r.Some? {
      SameColumnsHold(joined.registry, ApplyAll(joined, run, simples).registry, c, r.value);
    }
  }

  lemma KindsKeepApart(mid: Db, joined: Db, run: RunId, companies: seq<Op>, simples: seq<Op>, c: Cnpj)
    requires OfKind(Companies, companies) && OfKind(Simples, simples)
    ensures ComplementJoin.Payload(ApplyAll(joined, run, simples), Companies, run, c) == ComplementJoin.Payload(joined, Companies, run, c)
    ensures ComplementJoin.Payload(ApplyAll(mid, run, companies), Simples, run, c) == ComplementJoin.Payload(mid, Simples, run, c)
    ensures forall f :: FieldOf(ApplyAll(joined, run, simples).registry, c, f) == FieldOf(joined.registry, c, f)
  {
    hide ApplyAll, ComplementJoin.Payload, FieldOf;
    OtherKindAttachesNothing(Companies, simples, c);
    OtherKindAttachesNothing(Simples, companies, c);
    PayloadIsLastRecord(joined, run, Companies, simples, c);
    PayloadIsLastRecord(mid, run, Simples, companies, c);
    OthersKeepRegistry(joined, run, simples, c);
  }

  // The record a candidate ends with fills the columns of its company.
  lemma JoinEndsWithFirst(mid: Db, run: RunId, files: seq<seq<Row>>, listed: seq<Staging>, x: Staging)
    requires Succeeds(Companies, files, listed) && DistinctCnpjs(listed) && x in listed
    ensures var r := FirstRecord(Flat(files), x.basico);
      r.Some? ==> |r.value| == 7 && HoldsRecord(ApplyAll(mid, run, JoinOf(Companies, files, listed).work.ops).registry, x.cnpj, r.value)
  {
    hide AttachAll, ScanRows, Flat, FirstRecord, Found, ApplyAll, HoldsRecord, LastRecord, IsCompanyOp;
    var join := JoinOf(Companies, files, listed);
    JoinIsOfKind(Companies, files, listed);
    assert x.basico in Roots(listed);
    ScanShape(Flat(files), Roots(listed));
    ScanFindsFirst(Flat(files), Roots(listed), x.basico);
    AttachAllReaches(Companies, join.scan.records, listed, x);
    var r := FirstRecord(Flat(files), x.basico);
    if r.Some? {
      LastRecordFillsColumns(mid, run, join.work.ops, x.cnpj, r.value);
    }
  }
}
