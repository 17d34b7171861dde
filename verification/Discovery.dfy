/**
 One DISCOVER_CNPJ run: the limited scan, the two joins and the verdict, as a method over the
 store and as the list of transactions it commits.
 */
module Discovery {
  import opened Basics
  import opened LimitedScan
  import opened Establishments
  import Complements
  import opened Ingestion
  import opened EstablishmentScan
  import opened ComplementJoin
  import opened JoinOutcomes
  import opened RunStores
  import opened RunCounts

  datatype Mode = Preview | Full

  datatype Inputs = Inputs(
    mode: Mode,
    maxResults: nat,
    filter: Filter,
    parts: seq<seq<Row>>,
    companyFiles: seq<seq<Row>>,
    simplesFiles: seq<seq<Row>>)
  {
    // What the payload checks before the run establish.
    predicate Valid() {
      parts != [] && maxResults >= 1
    }
  }

  datatype Status = Pending | Running | Succeeded | Partial | Failed

  // What one complement kind reports.
  datatype JoinReport = JoinReport(sourcesProcessed: nat, rowsScanned: nat, matched: nat, missing: nat)

  datatype Report = Report(complete: bool, limitReached: bool, staged: nat, sourcesProcessed: nat, sourcesExpected: nat,
                           rowsScanned: nat, companies: JoinReport, simples: JoinReport)

  // What a run commits and what it writes on its query run.
  datatype Effect = Effect(ops: seq<Op>, status: Status, processed: nat, matched: nat, invalid: nat, report: Option<Report>)

  function ScanOf(inputs: Inputs): Scan<Establishment> {
    ScanParts(inputs.parts, inputs.filter, inputs.maxResults)
  }

  function FailedAfter(inputs: Inputs, ops: seq<Op>): Effect {
    var scan := ScanOf(inputs);
    Effect(ops, Failed, scan.rowsRead, scan.Matched(), scan.Invalid(), None)
  }

  function ReportOf(files: seq<seq<Row>>, listed: seq<Staging>, join: Join): JoinReport {
    JoinReport(FilesOpened(files, Roots(listed)), join.scan.rowsRead, |join.scan.records|, |join.scan.remaining|)
  }

  predicate Incomplete(files: seq<seq<Row>>, join: Join) {
    files != [] && join.scan.remaining != {}
  }

  function Verdict(inputs: Inputs, listed: seq<Staging>, companies: Join, simples: Join): Effect {
    var scan := ScanOf(inputs);
    var limitReached := |scan.found| == inputs.maxResults;
    var partial := inputs.mode == Preview || limitReached
                   || Incomplete(inputs.companyFiles, companies) || Incomplete(inputs.simplesFiles, simples);
    Effect(RowOps(scan.found) + companies.work.ops + simples.work.ops,
           if partial then Partial else Succeeded,
           scan.rowsRead + companies.scan.rowsRead + simples.scan.rowsRead, |scan.found|, 0,
           Some(Report(!partial, limitReached, |listed|,
                       PartsOpened(inputs.parts, Judge(inputs.filter), inputs.maxResults), |inputs.parts|, scan.rowsRead,
                       ReportOf(inputs.companyFiles, listed, companies), ReportOf(inputs.simplesFiles, listed, simples))))
  }

  function ListedAfter(inputs: Inputs, m: Candidates, run: RunId): seq<Staging> {
    Listed(Staged(m, run, RowOps(ScanOf(inputs).found)), run)
  }

  /** The whole run, given the candidates already staged when it starts. */
  function Discover(inputs: Inputs, m: Candidates, run: RunId): Effect {
    var rows := RowOps(ScanOf(inputs).found);
    if ScanOf(inputs).Failed() then FailedAfter(inputs, rows)
    else
      var listed := ListedAfter(inputs, m, run);
      var companies := JoinOf(Companies, inputs.companyFiles, listed);
      var simples := JoinOf(Simples, inputs.simplesFiles, listed);
      if companies.Failed() then FailedAfter(inputs, rows + companies.work.ops)
      else if simples.Failed() then FailedAfter(inputs, rows + companies.work.ops + simples.work.ops)
      else Verdict(inputs, listed, companies, simples)
  }

  // --------------------------------------------------------------------- the verdict

  lemma CompleteIffNothingLeft(kind: Kind, files: seq<seq<Row>>, listed: seq<Staging>)
    ensures JoinOf(kind, files, listed).Failed() <==> JoinFails(kind, files, listed)
    ensures JoinComplete(kind, files, listed)
       <==> !JoinOf(kind, files, listed).Failed() && !Incomplete(files, JoinOf(kind, files, listed))
  {
    hide JoinOf, JoinFails, JoinComplete;
    JoinOutcomeExactly(kind, files, listed);
  }

  /**
   A run is SUCCEEDED exactly when it is FULL, its filter is selective, every row of every part has the
   layout, every match fits its columns, there are fewer matches than the limit, and for each complement
   asked for every staged root has a record that fits, before any row of another layout.
   */
  lemma SucceededExactly(inputs: Inputs, m: Candidates, run: RunId)
    ensures Discover(inputs, m, run).status == Succeeded <==>
      var rows, wanted := Flat(inputs.parts), Wanted(inputs.filter);
      && inputs.mode == Full && inputs.filter.IsSelective()
      && AllReadable(rows, wanted) && AllFit(Hits(rows, wanted)) && |Hits(rows, wanted)| < inputs.maxResults
      && JoinComplete(Companies, inputs.companyFiles, ListedAfter(inputs, m, run))
      && JoinComplete(Simples, inputs.simplesFiles, ListedAfter(inputs, m, run))
  {
    hide JoinComplete, JoinFails, JoinOf, Judge, Wanted, Flat, ScanLimited, Listed, Staged, Hits, Readable, AllFit, PartsOpened, FilesOpened;
    var rows, judge, max := Flat(inputs.parts), Judge(inputs.filter), inputs.maxResults;
    var listed := ListedAfter(inputs, m, run);
    if inputs.filter.IsSelective() {
      ShortAndReadable(rows, judge, max);
      AllTakenExactly(rows, inputs.filter);
    }
    CompleteIffNothingLeft(Companies, inputs.companyFiles, listed);
    CompleteIffNothingLeft(Simples, inputs.simplesFiles, listed);
  }

  /**
   A run is FAILED exactly when its filter is not selective, a row of another layout or a match that its
   columns cannot hold comes before enough matches, or one of its joins fails.
   */
  lemma FailedExactly(inputs: Inputs, m: Candidates, run: RunId)
    ensures Discover(inputs, m, run).status == Failed <==>
      var rows, judge := Flat(inputs.parts), Judge(inputs.filter);
      || !inputs.filter.IsSelective()
      || (!AllReadable(rows, judge) && |Hits(Readable(rows, judge), judge)| < inputs.maxResults)
      || JoinFails(Companies, inputs.companyFiles, ListedAfter(inputs, m, run))
      || JoinFails(Simples, inputs.simplesFiles, ListedAfter(inputs, m, run))
  {
    hide JoinComplete, JoinFails, JoinOf, Judge, Flat, ScanLimited, Listed, Staged, Hits, Readable, PartsOpened, FilesOpened;
    var listed := ListedAfter(inputs, m, run);
    ScanIsFirstHits(Flat(inputs.parts), Judge(inputs.filter), inputs.maxResults);
    CompleteIffNothingLeft(Companies, inputs.companyFiles, listed);
    CompleteIffNothingLeft(Simples, inputs.simplesFiles, listed);
  }

  // Short of the limit and not failed is the same as readable with few hits.
  lemma ShortAndReadable<R, E>(rows: seq<R>, judge: R -> LimitedScan.Verdict<E>, limit: nat)
    ensures !ScanLimited(rows, judge, limit).Failed() && |ScanLimited(rows, judge, limit).found| != limit
       <==> AllReadable(rows, judge) && |Hits(rows, judge)| < limit
  {
    hide ScanLimited, Hits;
    var scan := ScanLimited(rows, judge, limit);
    ScanIsFirstHits(rows, judge, limit);
    ScanBounds(rows, judge, limit);
    if !scan.Failed() && |scan.found| != limit {
      ShortOfLimitIsExhaustive(rows, judge, limit);
    }
    if AllReadable(rows, judge) {
      assert Readable(rows, judge) == rows;
    }
  }

  // The row a failed scan stopped at; before it every row was taken.
  function StoppedAt(inputs: Inputs): Option<Fault> {
    var rows, judge := Flat(inputs.parts), Judge(inputs.filter);
    var n := |Readable(rows, judge)|;
    if n < |rows| && |Hits(rows[..n], Wanted(inputs.filter))| < inputs.maxResults then Some(judge(rows[n]).fault) else None
  }

  lemma TakenRowsAreWanted(rows: seq<Row>, f: Filter)
    ensures var good := Readable(rows, Judge(f)); Hits(good, Judge(f)) == Hits(good, Wanted(f))
  {
    hide Judge, Wanted, Hits;
    AllTakenExactly(Readable(rows, Judge(f)), f);
  }

  /**
   What a run stages: never more than the limit, always the first matches, in file order, among the rows
   before the first one of another layout and the first match that does not fit.  A refused match is
   counted and not staged, and the limit is reported as reached exactly when that many were kept.
   */
  lemma MatchesAreTheFirst(inputs: Inputs, m: Candidates, run: RunId)
    requires inputs.filter.IsSelective()
    ensures var taken := Readable(Flat(inputs.parts), Judge(inputs.filter));
      ScanOf(inputs).found == Take(Hits(taken, Wanted(inputs.filter)), inputs.maxResults) && AllFit(ScanOf(inputs).found)
    ensures ScanOf(inputs).failure == StoppedAt(inputs)
    ensures var effect := Discover(inputs, m, run);
      && effect.matched == |ScanOf(inputs).found| + (if StoppedAt(inputs) == Some(Refused) then 1 else 0) <= inputs.maxResults
      && effect.invalid == if StoppedAt(inputs) == Some(BadLayout) then 1 else 0
    ensures Discover(inputs, m, run).report.Some? ==>
      (Discover(inputs, m, run).report.value.limitReached <==> Discover(inputs, m, run).matched == inputs.maxResults)
  {
    hide JoinOf, Judge, Wanted, Flat, ScanLimited, Listed, Staged, Hits, Readable, AllFit, PartsOpened, FilesOpened;
    var rows, judge := Flat(inputs.parts), Judge(inputs.filter);
    ScanIsFirstHits(rows, judge, inputs.maxResults);
    ScanBounds(rows, judge, inputs.maxResults);
    TakenRowsAreWanted(rows, inputs.filter);
    TakenRowsFit(rows, inputs.filter);
    TakenFit(Hits(Readable(rows, judge), Wanted(inputs.filter)), inputs.maxResults);
    assert rows[..|Readable(rows, judge)|] == Readable(rows, judge);
  }

  lemma TakenRowsFit(rows: seq<Row>, f: Filter)
    ensures AllFit(Hits(Readable(rows, Judge(f)), Wanted(f)))
  {
    hide Judge, Wanted, Hits, AllFit;
    AllTakenExactly(Readable(rows, Judge(f)), f);
  }

  lemma TakenFit(es: seq<Establishment>, n: nat)
    requires AllFit(es)
    ensures AllFit(Take(es, n))
  {
    hide Fits;
  }

  /** Basics matched and basics missing add up to the distinct basics staged, for both joins. */
  lemma BasicsAddUp(inputs: Inputs, m: Candidates, run: RunId)
    requires Discover(inputs, m, run).report.Some?
    ensures var report := Discover(inputs, m, run).report.value; var roots := Roots(ListedAfter(inputs, m, run));
      report.companies.matched + report.companies.missing == |roots| == report.simples.matched + report.simples.missing
  {
    hide Judge, Flat, ScanLimited, Listed, Staged, AttachAll, Complements.ScanRows, PartsOpened, FilesOpened, Roots;
    var roots := Roots(ListedAfter(inputs, m, run));
    Complements.ScanShape(Flat(inputs.companyFiles), roots);
    Complements.ScanShape(Flat(inputs.simplesFiles), roots);
  }

  // ------------------------------------------------------------------ crash and rerun

  lemma {:induction false} StagedAppend(m: Candidates, run: RunId, xs: seq<Op>, ys: seq<Op>)
    ensures Staged(m, run, xs + ys) == Staged(Staged(m, run, xs), run, ys)
    decreases |xs|
  {
    if xs == [] {
      assert xs + ys == ys;
    } else {
      assert (xs + ys)[1..] == xs[1..] + ys;
      StagedAppend(AfterCandidates(m, run, xs[0]), run, xs[1..], ys);
    }
  }

  lemma {:induction false} AttachHasNoRows(kind: Kind, cs: seq<Cnpj>, r: Complements.Record)
    ensures NoRows(Attach(kind, cs, r).ops)
  {
    hide CompanyFields;
    if cs != [] {
      AttachHasNoRows(kind, cs[1..], r);
    }
  }

  lemma {:induction false} AttachAllHasNoRows(kind: Kind, records: seq<Complements.Record>, listed: seq<Staging>)
    requires Complements.FullRecords(records)
    ensures NoRows(AttachAll(kind, records, listed).ops)
  {
    hide Attach, Group;
    if records != [] {
      AttachHasNoRows(kind, Group(listed, records[0][0]), records[0]);
      AttachAllHasNoRows(kind, records[1..], listed);
    }
  }

  lemma JoinHasNoRows(kind: Kind, files: seq<seq<Row>>, listed: seq<Staging>)
    ensures NoRows(JoinOf(kind, files, listed).work.ops)
  {
    hide AttachAll, Complements.ScanRows;
    Complements.ScanShape(Flat(files), Roots(listed));
    AttachAllHasNoRows(kind, Complements.ScanRows(Flat(files), Roots(listed)).records, listed);
  }

  // The rows first, then transactions that stage nothing.
  lemma RowsComeFirst(inputs: Inputs, m: Candidates, run: RunId)
    ensures var rows, ops := RowOps(ScanOf(inputs).found), Discover(inputs, m, run).ops;
      rows <= ops && NoRows(ops[|rows|..])
  {
    hide JoinOf, RowOps, ScanParts, Listed, Staged;
    var rows, listed := RowOps(ScanOf(inputs).found), ListedAfter(inputs, m, run);
    JoinHasNoRows(Companies, inputs.companyFiles, listed);
    JoinHasNoRows(Simples, inputs.simplesFiles, listed);
  }

  lemma StagedAbsorbsPrefix(db: Db, run: RunId, rows: seq<Op>, k: nat)
    requires k <= |rows|
    ensures Staged(Staged(db.candidates, run, rows[..k]), run, rows) == Staged(db.candidates, run, rows)
  {
    hide Apply, ApplyAll, Staged;
    RerunConverges(db, run, rows, k);
    var mid := ApplyAll(db, run, rows[..k]);
    CandidatesAreStaged(db, run, rows[..k]);
    CandidatesAreStaged(mid, run, rows);
    CandidatesAreStaged(db, run, rows);
  }

  // Whatever prefix was committed, staging all the rows again gives the same candidates.
  lemma StagedAgain(db: Db, run: RunId, ops: seq<Op>, rows: seq<Op>, k: nat)
    requires rows <= ops && NoRows(ops[|rows|..]) && k <= |ops|
    ensures Staged(Staged(db.candidates, run, ops[..k]), run, rows) == Staged(db.candidates, run, rows)
  {
    hide Staged;
    if k <= |rows| {
      assert ops[..k] == rows[..k];
      StagedAbsorbsPrefix(db, run, rows, k);
    } else {
      var rest := ops[|rows|..k];
      assert ops[..k] == rows + rest;
      assert NoRows(rest) by {
        assert forall i :: 0 <= i < |rest| ==> rest[i] == ops[|rows|..][i];
      }
      StagedAppend(db.candidates, run, rows, rest);
      NoRowsStageNothing(Staged(db.candidates, run, rows), run, rest);
      StagedAbsorbsPrefix(db, run, rows, |rows|);
      assert rows[..|rows|] == rows;
    }
  }

  /** A run that crashed after any k transactions and starts over commits the same transactions. */
  lemma RerunDiscoversTheSame(db: Db, run: RunId, inputs: Inputs, k: nat)
    requires k <= |Discover(inputs, db.candidates, run).ops|
    ensures var ops := Discover(inputs, db.candidates, run).ops; var crashed := ApplyAll(db, run, ops[..k]);
      && Discover(inputs, crashed.candidates, run) == Discover(inputs, db.candidates, run)
      && ApplyAll(crashed, run, ops) == ApplyAll(db, run, ops)
  {
    hide Apply, ApplyAll, Staged, Listed, JoinOf, ScanParts, RowOps;
    var ops, rows := Discover(inputs, db.candidates, run).ops, RowOps(ScanOf(inputs).found);
    RowsComeFirst(inputs, db.candidates, run);
    CandidatesAreStaged(db, run, ops[..k]);
    StagedAgain(db, run, ops, rows, k);
    RerunConverges(db, run, ops, k);
  }

  // What is left after a run was started and crashed, once for each entry of ks.
  function AfterCrashes(db: Db, run: RunId, inputs: Inputs, ks: seq<nat>): Db {
    if ks == [] then db
    else
      var before := AfterCrashes(db, run, inputs, ks[..|ks| - 1]);
      var ops := Discover(inputs, before.candidates, run).ops;
      ApplyAll(before, run, ops[..Min(ks[|ks| - 1], |ops|)])
  }

  /**
   Retry convergence: however often and wherever a run crashes, running it again from the start
   leaves the same candidates, results, company columns, CNAE flags and records, and the same
   verdict and counters, as one run without a crash.
   */
  lemma {:induction false} RetriesConverge(db: Db, run: RunId, inputs: Inputs, ks: seq<nat>)
    ensures var crashed := AfterCrashes(db, run, inputs, ks); var effect := Discover(inputs, db.candidates, run);
      && Discover(inputs, crashed.candidates, run) == effect
      && ApplyAll(crashed, run, effect.ops) == ApplyAll(db, run, effect.ops)
  {
    hide ApplyAll, Discover;
    if ks != [] {
      var before := AfterCrashes(db, run, inputs, ks[..|ks| - 1]);
      RetriesConverge(db, run, inputs, ks[..|ks| - 1]);
      var ops := Discover(inputs, db.candidates, run).ops;
      RerunDiscoversTheSame(before, run, inputs, Min(ks[|ks| - 1], |ops|));
    }
  }

  // ------------------------------------------------------- what a run leaves, in full

  // The matches a run keeps: the first ones of all the rows, as many as its limit allows.
  function Kept(inputs: Inputs): seq<Establishment> {
    Take(Hits(Flat(inputs.parts), Wanted(inputs.filter)), inputs.maxResults)
  }

  // The tables after a run that did not fail, from its files and the tables before it.
  ghost predicate TablesHold(before: Db, after: Db, run: RunId, inputs: Inputs) {
    && ResultsStored(before, after, run, Kept(inputs)) && CandidatesStored(before, after, run, Kept(inputs))
    && RecordsStored(before, after, run, Flat(inputs.companyFiles), Flat(inputs.simplesFiles))
  }

  ghost function RootsStaged(m: Candidates, run: RunId): set<string> {
    set k | k in m && k.0 == run :: m[k].basico
  }

  ghost predicate JoinReportIs(r: JoinReport, files: seq<seq<Row>>, roots: set<string>) {
    JoinCounts(r.sourcesProcessed, r.rowsScanned, r.matched, r.missing, files, roots)
  }

  // The report of a run that did not fail, from its files and the candidates it leaves.
  ghost predicate ReportHolds(report: Report, inputs: Inputs, m: Candidates, run: RunId) {
    && ScanCounts(report.rowsScanned, report.sourcesProcessed, inputs.parts, inputs.filter, inputs.maxResults)
    && report.sourcesExpected == |inputs.parts|
    && (report.limitReached <==> |Kept(inputs)| == inputs.maxResults)
    && report.staged == |set k | k in m && k.0 == run|
    && JoinReportIs(report.companies, inputs.companyFiles, RootsStaged(m, run))
    && JoinReportIs(report.simples, inputs.simplesFiles, RootsStaged(m, run))
    && (report.complete <==>
          && inputs.mode == Full && !report.limitReached
          && (inputs.companyFiles == [] || report.companies.missing == 0) && (inputs.simplesFiles == [] || report.simples.missing == 0))
  }

  lemma RowsKeepPayloads(db: Db, run: RunId, es: seq<Establishment>)
    ensures var after := ApplyAll(db, run, RowOps(es));
      after.companyPayloads == db.companyPayloads && after.simplesPayloads == db.simplesPayloads
    decreases |es|
  {
    hide AfterCompanies, AfterRegistry, AfterCnaes, AfterRecords, AfterResults, AfterCandidates;
    if es == [] {
      ApplyNoRows(db, run);
    } else {
      var n := |es| - 1;
      assert es == es[..n] + [es[n]];
      ApplyOneRow(db, run, es[..n], es[n]);
      RowsKeepPayloads(db, run, es[..n]);
    }
  }

  lemma JoinsKeepMatches(mid: Db, run: RunId, inputs: Inputs, listed: seq<Staging>)
    ensures var joined := ApplyAll(mid, run, JoinOf(Companies, inputs.companyFiles, listed).work.ops);
      var after := ApplyAll(joined, run, JoinOf(Simples, inputs.simplesFiles, listed).work.ops);
      after.candidates == mid.candidates && after.results == mid.results
  {
    hide JoinOf, ApplyAll, IsCompanyOp;
    var companies := JoinOf(Companies, inputs.companyFiles, listed).work.ops;
    JoinHasNoRows(Companies, inputs.companyFiles, listed);
    JoinHasNoRows(Simples, inputs.simplesFiles, listed);
    JoinKeepsMatches(mid, run, companies);
    JoinKeepsMatches(ApplyAll(mid, run, companies), run, JoinOf(Simples, inputs.simplesFiles, listed).work.ops);
  }

  lemma JoinsHold(before: Db, mid: Db, run: RunId, inputs: Inputs, listed: seq<Staging>)
    requires mid.companyPayloads == before.companyPayloads && mid.simplesPayloads == before.simplesPayloads
    requires listed == Listed(mid.candidates, run)
    requires !JoinOf(Companies, inputs.companyFiles, listed).Failed() && !JoinOf(Simples, inputs.simplesFiles, listed).Failed()
    ensures var joined := ApplyAll(mid, run, JoinOf(Companies, inputs.companyFiles, listed).work.ops);
      var after := ApplyAll(joined, run, JoinOf(Simples, inputs.simplesFiles, listed).work.ops);
      RecordsStored(before, after, run, Flat(inputs.companyFiles), Flat(inputs.simplesFiles))
  {
    hide JoinOf, ApplyAll, Listed, Flat, Complements.FirstRecord, HoldsRecord, FirstStored;
    JoinsKeepMatches(mid, run, inputs, listed);
    forall c | (run, c) in mid.candidates
      ensures var basico := mid.candidates[(run, c)].basico;
        var joined := ApplyAll(mid, run, JoinOf(Companies, inputs.companyFiles, listed).work.ops);
        var after := ApplyAll(joined, run, JoinOf(Simples, inputs.simplesFiles, listed).work.ops);
        && FirstStored(before.companyPayloads, after.companyPayloads, Flat(inputs.companyFiles), (run, c), basico)
        && FirstStored(before.simplesPayloads, after.simplesPayloads, Flat(inputs.simplesFiles), (run, c), basico)
        && (Complements.FirstRecord(Flat(inputs.companyFiles), basico).Some? ==>
              |Complements.FirstRecord(Flat(inputs.companyFiles), basico).value| == 7
              && HoldsRecord(after.registry, c, Complements.FirstRecord(Flat(inputs.companyFiles), basico).value))
    {
      JoinsStore(mid, run, inputs.companyFiles, inputs.simplesFiles, c);
    }
  }

  /**
   The tables a run leaves when it does not fail: its first matches are results and linked candidates, and
   every candidate of the run has the first company record and the first Simples record of its root, if
   there are any, with the company's columns filled from the former.
   */
  lemma RunFillsTables(before: Db, run: RunId, inputs: Inputs)
    requires Discover(inputs, before.candidates, run).status != Failed
    ensures TablesHold(before, ApplyAll(before, run, Discover(inputs, before.candidates, run).ops), run, inputs)
  {
    hide JoinOf, ApplyAll, Listed, Staged, Flat, RowOps, ScanLimited, Hits, Take, PartsOpened, FilesOpened, Roots, RecordsStored,
         ResultsStored, CandidatesStored, Judge, Wanted;
    var found := ScanOf(inputs).found;
    var mid := ApplyAll(before, run, RowOps(found));
    var listed := ListedAfter(inputs, before.candidates, run);
    var companies, simples := JoinOf(Companies, inputs.companyFiles, listed).work.ops, JoinOf(Simples, inputs.simplesFiles, listed).work.ops;
    FoundAreFirst(Flat(inputs.parts), inputs.filter, inputs.maxResults);
    MatchesAreStored(before, run, found);
    CandidatesAreStaged(before, run, RowOps(found));
    RowsKeepPayloads(before, run, found);
    JoinsKeepMatches(mid, run, inputs, listed);
    JoinsHold(before, mid, run, inputs, listed);
    ApplyAllAppend(before, run, RowOps(found), companies);
    ApplyAllAppend(before, run, RowOps(found) + companies, simples);
    StoredAlike(before, mid, ApplyAll(ApplyAll(mid, run, companies), run, simples), run, found);
  }

  lemma StoredAlike(before: Db, mid: Db, after: Db, run: RunId, found: seq<Establishment>)
    requires after.candidates == mid.candidates && after.results == mid.results
    requires ResultsStored(before, mid, run, found) && CandidatesStored(before, mid, run, found)
    ensures ResultsStored(before, after, run, found) && CandidatesStored(before, after, run, found)
  {
    hide IsMatched, IsLastOf;
  }

  lemma RootsAreStaged(m: Candidates, run: RunId)
    ensures Roots(Listed(m, run)) == RootsStaged(m, run) && |Listed(m, run)| == |set k | k in m && k.0 == run|
  {
    hide Listed;
    var listed := Listed(m, run);
    ListingIsTheRun(m, run);
    forall b ensures b in Roots(listed) <==> b in RootsStaged(m, run) {
      if b in RootsStaged(m, run) {
        var k :| k in m && k.0 == run && m[k].basico == b;
        assert Staging(k.1, b) in listed;
      }
    }
    ListedCounts(m, run);
  }

  lemma ListedCounts(m: Candidates, run: RunId)
    ensures |Listed(m, run)| == |set k | k in m && k.0 == run|
  {
    var keys := set k | k in m && k.0 == run;
    PairsCount(run, RunKeys(m, run), keys);
  }

  lemma {:induction false} PairsCount(run: RunId, cs: set<Cnpj>, keys: set<(RunId, Cnpj)>)
    requires forall k :: k in keys <==> k.0 == run && k.1 in cs
    ensures |keys| == |cs|
    decreases |cs|
  {
    if cs == {} {
      assert keys == {};
    } else {
      var c :| c in cs;
      assert (run, c) in keys;
      PairsCount(run, cs - {c}, keys - {(run, c)});
    }
  }

  /** The report of a run that does not fail counts what its name says, for the scan and for both joins. */
  lemma ReportCounts(inputs: Inputs, m: Candidates, run: RunId)
    requires Discover(inputs, m, run).report.Some?
    ensures var report := Discover(inputs, m, run).report.value;
      ReportHolds(report, inputs, Staged(m, run, RowOps(ScanOf(inputs).found)), run)
    ensures var effect := Discover(inputs, m, run); var report := effect.report.value;
      && effect.processed == report.rowsScanned + report.companies.rowsScanned + report.simples.rowsScanned
      && effect.matched == |Kept(inputs)| && effect.invalid == 0
      && effect.status == if report.complete then Succeeded else Partial
  {
    hide JoinOf, Listed, Staged, Flat, RowOps, ScanLimited, Hits, Take, PartsOpened, FilesOpened, Roots, Judge, Wanted, JoinCounts, ScanCounts, RootsStaged;
    var listed := ListedAfter(inputs, m, run);
    FoundAreFirst(Flat(inputs.parts), inputs.filter, inputs.maxResults);
    ScanCountsRows(inputs.parts, inputs.filter, inputs.maxResults);
    JoinCountsRows(Companies, inputs.companyFiles, listed);
    JoinCountsRows(Simples, inputs.simplesFiles, listed);
    RootsAreStaged(Staged(m, run, RowOps(ScanOf(inputs).found)), run);
  }

  // ---------------------------------------------------------------------- the method

  // Every candidate is linked to its own company; rows are staged and linked in one transaction.
  ghost predicate Linked(m: Candidates) {
    forall k :: k in m ==> m[k].company == Some(k.1)
  }

  lemma {:induction false} StagedStaysLinked(m: Candidates, run: RunId, xs: seq<Op>)
    requires Linked(m)
    ensures Linked(Staged(m, run, xs))
    decreases |xs|
  {
    if xs != [] {
      StagedStaysLinked(AfterCandidates(m, run, xs[0]), run, xs[1..]);
    }
  }

  lemma ListedIsReady(m: Candidates, run: RunId)
    requires Linked(m)
    ensures AllReady(m, run, Listed(m, run))
  {
    ListingIsTheRun(m, run);
  }

  class QueryRun {
    var status: Status
    var recordsProcessed: nat
    var recordsMatched: nat
    var recordsFailed: nat
    var coverage: Option<Report>

    constructor ()
      ensures status == Pending && coverage == None
    {
      status, recordsProcessed, recordsMatched, recordsFailed, coverage := Pending, 0, 0, 0, None;
    }

    method Fail(rows: nat, matches: nat, invalid: nat)
      modifies this
      ensures status == Failed && recordsProcessed == rows && recordsMatched == matches && recordsFailed == invalid
      ensures coverage == old(coverage)
    {
      status, recordsProcessed, recordsMatched, recordsFailed := Failed, rows, matches, invalid;
    }
  }

  // The counters of the job, written by its last statement.
  class JobCounters {
    var processed: nat
    var success: nat
    var failed: nat

    constructor ()
      ensures processed == success == failed == 0
    {
      processed, success, failed := 0, 0, 0;
    }
  }

  lemma CandidatesOfRun(before: Db, run: RunId, inputs: Inputs)
    ensures ApplyAll(before, run, Discover(inputs, before.candidates, run).ops).candidates
         == Staged(before.candidates, run, RowOps(ScanOf(inputs).found))
  {
    hide ApplyAll, Staged, RowOps, ScanOf, Discover;
    var rows, ops := RowOps(ScanOf(inputs).found), Discover(inputs, before.candidates, run).ops;
    RowsComeFirst(inputs, before.candidates, run);
    CandidatesAreStaged(before, run, ops);
    assert ops == rows + ops[|rows|..];
    StagedAppend(before.candidates, run, rows, ops[|rows|..]);
    NoRowsStageNothing(Staged(before.candidates, run, rows), run, ops[|rows|..]);
  }

  // What the scan and the joins report when they end well.
  datatype Tally = Tally(rows: nat, matches: nat, invalid: nat, limitReached: bool, staged: nat, sources: nat,
                         companies: JoinReport, simples: JoinReport)

  ghost predicate Tallies(t: Tally, inputs: Inputs, listed: seq<Staging>) {
    && t.rows == ScanOf(inputs).rowsRead && t.matches == |ScanOf(inputs).found| && t.invalid == 0
    && (t.limitReached <==> |ScanOf(inputs).found| == inputs.maxResults) && t.staged == |listed|
    && t.sources == PartsOpened(inputs.parts, Judge(inputs.filter), inputs.maxResults)
    && t.companies == ReportOf(inputs.companyFiles, listed, JoinOf(Companies, inputs.companyFiles, listed))
    && t.simples == ReportOf(inputs.simplesFiles, listed, JoinOf(Simples, inputs.simplesFiles, listed))
  }

  // One kind of complement, over the candidates staged.
  method JoinKind(store: CnpjStore, run: RunId, kind: Kind, files: seq<seq<Row>>, listed: seq<Staging>)
      returns (failed: bool, report: JoinReport)
    requires AllReady(store.candidates, run, listed)
    modifies store
    ensures var join := JoinOf(kind, files, listed);
      && store.Contents() == ApplyAll(old(store.Contents()), run, join.work.ops) && failed == join.Failed()
      && (!failed ==> report == ReportOf(files, listed, join))
    ensures store.candidates == old(store.candidates)
  {
    hide Apply, ApplyAll, JoinOf, AllReady, Roots, FilesOpened;
    var remaining, rows, matches, sources;
    failed, remaining, rows, matches, sources := JoinFiles(store, run, kind, files, listed);
    report := JoinReport(sources, rows, matches, |remaining|);
  }

  // The body of the try statement: on a failure only the establishment counters are known.
  method ScanAndJoin(store: CnpjStore, run: RunId, inputs: Inputs) returns (failed: bool, tally: Tally)
    requires inputs.Valid() && Linked(store.candidates)
    modifies store
    ensures var effect := Discover(inputs, old(store.candidates), run);
      && store.Contents() == ApplyAll(old(store.Contents()), run, effect.ops) && failed == (effect.status == Failed)
      && (failed ==> tally.rows == effect.processed && tally.matches == effect.matched && tally.invalid == effect.invalid)
      && (!failed ==> Tallies(tally, inputs, ListedAfter(inputs, old(store.candidates), run)))
    ensures Linked(store.candidates)
  {
    hide Apply, ApplyAll, ScanParts, JoinOf, Linked, Listed, Staged, AllReady, Roots, RowOps, PartsOpened, FilesOpened, Judge, ReportOf;
    ghost var start, m := store.Contents(), store.candidates;
    var none := JoinReport(0, 0, 0, 0);
    var limitReached, rows, matches, invalid, sources;
    failed, limitReached, rows, matches, invalid, sources :=
      ScanEstablishments(store, run, inputs.parts, inputs.filter, inputs.maxResults);
    tally := Tally(rows, matches, invalid, limitReached, 0, sources, none, none);
    ghost var rowOps := RowOps(ScanOf(inputs).found);
    CandidatesAreStaged(start, run, rowOps);
    StagedStaysLinked(m, run, rowOps);
    if failed {
      return;
    }
    var listed := Listed(store.candidates, run);
    ListedIsReady(store.candidates, run);
    var companies, simples;
    failed, companies := JoinKind(store, run, Companies, inputs.companyFiles, listed);
    ghost var companyOps := JoinOf(Companies, inputs.companyFiles, listed).work.ops;
    ApplyAllAppend(start, run, rowOps, companyOps);
    if failed {
      return;
    }
    failed, simples := JoinKind(store, run, Simples, inputs.simplesFiles, listed);
    ApplyAllAppend(start, run, rowOps + companyOps, JoinOf(Simples, inputs.simplesFiles, listed).work.ops);
    tally := Tally(rows, matches, invalid, limitReached, |listed|, sources, companies, simples);
  }

  /**
   `execute_discover_cnpj`, after its payload checks: the transactions and the verdict of the specification, and,
   when nothing was raised, the tables and the counters as the files alone determine them.
   */
  method ExecuteDiscover(store: CnpjStore, query: QueryRun, job: JobCounters, run: RunId, inputs: Inputs) returns (raised: bool)
    requires inputs.Valid() && Linked(store.candidates)
    modifies store, query, job
    ensures var effect := Discover(inputs, old(store.candidates), run);
      && store.Contents() == ApplyAll(old(store.Contents()), run, effect.ops)
      && query.status == effect.status && raised == (effect.status == Failed)
      && query.recordsProcessed == effect.processed && query.recordsMatched == effect.matched
      && query.recordsFailed == effect.invalid
      && query.coverage == (if effect.report.Some? then effect.report else old(query.coverage))
    ensures if raised then unchanged(job)
            else job.processed == query.recordsProcessed && job.success == query.recordsMatched && job.failed == query.recordsFailed
    ensures Linked(store.candidates)
    ensures !raised ==> TablesHold(old(store.Contents()), store.Contents(), run, inputs)
    ensures !raised ==> query.coverage.Some? && ReportHolds(query.coverage.value, inputs, store.candidates, run)
    ensures !raised ==>
      var report := query.coverage.value;
      && query.recordsProcessed == report.rowsScanned + report.companies.rowsScanned + report.simples.rowsScanned
      && query.recordsMatched == |Kept(inputs)| && query.recordsFailed == 0
      && query.status == if report.complete then Succeeded else Partial
  {
    hide Apply, ApplyAll, ScanParts, JoinOf, Linked, Listed, Staged, Roots, RowOps, PartsOpened, FilesOpened, Judge, TablesHold, ReportHolds,
         Kept;
    ghost var before := store.Contents();
    query.status := Running;
    var t;
    raised, t := ScanAndJoin(store, run, inputs);
    if raised {
      query.Fail(t.rows, t.matches, t.invalid);
      return;
    }
    RunFillsTables(before, run, inputs);
    ReportCounts(inputs, before.candidates, run);
    CandidatesOfRun(before, run, inputs);
    var complementIncomplete := (inputs.companyFiles != [] && t.companies.missing != 0) || (inputs.simplesFiles != [] && t.simples.missing != 0);
    var partial := inputs.mode == Preview || t.limitReached || complementIncomplete;
    query.status := if partial then Partial else Succeeded;
    query.recordsProcessed := t.rows + t.companies.rowsScanned + t.simples.rowsScanned;
    query.recordsMatched := t.matches;
    query.recordsFailed := t.invalid;
    query.coverage := Some(Report(!partial, t.limitReached, t.staged, t.sources, |inputs.parts|, t.rows, t.companies, t.simples));
    job.processed, job.success, job.failed := query.recordsProcessed, t.matches, t.invalid;
  }
}
