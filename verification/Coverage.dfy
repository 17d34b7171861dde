/**
 Coverage entries: complete runs that later queries with an equivalent scope reuse instead of
 scanning again.  One source is modelled; a scope hash stands for the text it digests.
 */
module Coverage {
  import opened Basics
  import Filters
  import LimitedScan
  import opened Establishments
  import opened Ingestion
  import opened EstablishmentScan
  import ComplementJoin
  import opened Discovery
  import opened Planning
  import opened Text

  type Time = int

  // The manifests that are ready, and what each file named by a path or URL contains.
  datatype World = World(manifests: map<string, Manifest>, files: map<Source, seq<Row>>)

  // A run was queued with its job's payload, or copied from a run over the given parts.
  datatype Origin = Queued(payload: JobPayload) | Copied(parts: seq<Source>)
  {
    // The establishment parts whose rows the run's results come from.
    function Parts(): seq<Source> {
      match this
      case Copied(parts) => parts
      case Queued(payload) => match EstablishmentSources(payload) case Ok(sources) => sources case Err(_) => []
    }
  }

  datatype RunRow = RunRow(query: Filters.Query, dataset: string, origin: Origin, status: Status)

  datatype Entry = Entry(run: RunId, recordCount: nat, expiresAt: Option<Time>)

  // (dataset reference, scope hash): unique for the source.
  type Key = (string, string)

  // Results are kept in the order the table returns them.
  datatype Cache = Cache(runs: map<RunId, RunRow>, results: map<RunId, seq<Cnpj>>, entries: map<Key, Entry>)

  function KeyOf(row: RunRow): Key {
    (row.dataset, Filters.ScopeHash(row.query))
  }

  // ------------------------------------------------------------------- the operations

  function FindValid(c: Cache, dataset: string, q: Filters.Query, at: Time): Option<Entry> {
    var key := (dataset, Filters.ScopeHash(q));
    if key in c.entries && c.entries[key].run in c.runs && c.runs[c.entries[key].run].status == Succeeded
       && (c.entries[key].expiresAt.None? || c.entries[key].expiresAt.value > at)
    then Some(c.entries[key]) else None
  }

  function RecordCoverage(c: Cache, r: RunId, expiresAt: Option<Time>): Cache
    requires r in c.runs && r in c.results
  {
    c.(entries := c.entries[KeyOf(c.runs[r]) := Entry(r, |c.results[r]|, expiresAt)])
  }

  function Materialize(c: Cache, dataset: string, q: Filters.Query, entry: Entry, max: nat, r: RunId): Cache
    requires entry.run in c.results && entry.run in c.runs
  {
    var all := c.results[entry.run];
    c.(runs := c.runs[r := RunRow(q, dataset, Copied(c.runs[entry.run].origin.Parts()), if |all| > max then Partial else Succeeded)],
       results := c.results[r := LimitedScan.Take(all, max)])
  }

  class CoverageStore {
    var runs: map<RunId, RunRow>
    var results: map<RunId, seq<Cnpj>>
    var entries: map<Key, Entry>

    ghost function Contents(): Cache
      reads this
    {
      Cache(runs, results, entries)
    }

    constructor ()
      ensures Contents() == Cache(map[], map[], map[])
    {
      runs, results, entries := map[], map[], map[];
    }

    /**
     `find_valid_coverage`: the entry of the dataset and the scope is the answer exactly when there is one,
     its run succeeded, and it never expires or expires later.
     */
    method FindValidCoverage(dataset: string, q: Filters.Query, at: Time) returns (found: Option<Entry>)
      ensures found == FindValid(Contents(), dataset, q, at)
      ensures var key := (dataset, Filters.ScopeHash(q));
        && (found.Some? <==>
              && key in entries && entries[key].run in runs && runs[entries[key].run].status == Succeeded
              && (entries[key].expiresAt.Some? ==> at < entries[key].expiresAt.value))
        && (found.Some? ==> found.value == entries[key])
    {
      var key := (dataset, Filters.ScopeHash(q));
      if key !in entries {
        return None;
      }
      var entry := entries[key];
      if entry.run !in runs || runs[entry.run].status != Succeeded {
        return None;
      }
      if entry.expiresAt.Some? && entry.expiresAt.value <= at {
        return None;
      }
      return Some(entry);
    }

    method RecordSourceCoverage(r: RunId, expiresAt: Option<Time>) returns (ok: bool)
      requires r in runs && r in results
      modifies this`entries
      ensures ok <==> runs[r].status == Succeeded && runs[r].dataset != ""
      ensures Contents() == if ok then RecordCoverage(old(Contents()), r, expiresAt) else old(Contents())
      ensures ok ==> entries == old(entries)[(runs[r].dataset, Filters.ScopeHash(runs[r].query)) := Entry(r, |results[r]|, expiresAt)]
    {
      if runs[r].status != Succeeded || runs[r].dataset == "" {
        return false;
      }
      entries := entries[KeyOf(runs[r]) := Entry(r, |results[r]|, expiresAt)];
      return true;
    }

    /** `materialize_cached_run`: one more result than the limit is read, to see whether it was reached. */
    method MaterializeCachedRun(dataset: string, q: Filters.Query, entry: Entry, max: int, r: RunId)
        returns (ok: bool, limitReached: bool, matched: nat)
      requires entry.run in results && entry.run in runs && r !in runs
      modifies this`runs, this`results
      ensures ok <==> max >= 1
      ensures Contents() == if ok then Materialize(old(Contents()), dataset, q, entry, max, r) else old(Contents())
      ensures ok ==> limitReached == (|old(results)[entry.run]| > max) && matched == |results[r]|
      ensures ok ==>
        var all := old(results)[entry.run];
        && results == old(results)[r := if |all| <= max then all else all[..max]]
        && runs == old(runs)[r := RunRow(q, dataset, Copied(old(runs)[entry.run].origin.Parts()),
                                         if |all| <= max then Succeeded else Partial)]
    {
      if max < 1 {
        return false, false, 0;
      }
      var all := results[entry.run];
      var sourceResults := if |all| > max + 1 then all[..max + 1] else all;
      var selected := if |sourceResults| > max then sourceResults[..max] else sourceResults;
      limitReached := |sourceResults| > max;
      assert selected == LimitedScan.Take(all, max);
      runs := runs[r := RunRow(q, dataset, Copied(runs[entry.run].origin.Parts()), if limitReached then Partial else Succeeded)];
      results := results[r := selected];
      return true, limitReached, |selected|;
    }
  }

  // ------------------------------------------------------------- what a full scan selects

  function Elems(rs: seq<Cnpj>): set<Cnpj> {
    set i | 0 <= i < |rs| :: rs[i]
  }

  ghost predicate NoRepeats(rs: seq<Cnpj>) {
    forall i, j :: 0 <= i < j < |rs| ==> rs[i] != rs[j]
  }

  function CnpjsOf(es: seq<Establishment>): set<Cnpj> {
    set i | 0 <= i < |es| :: es[i].Cnpj()
  }

  function PartHits(rows: seq<Row>, f: Filter): seq<Establishment> {
    LimitedScan.Hits(NonBlank(rows), Wanted(f))
  }

  // c is selected by some row of a file.
  ghost predicate SelectedIn(c: Cnpj, files: map<Source, seq<Row>>, f: Filter, s: Source) {
    s in files && c in CnpjsOf(PartHits(files[s], f))
  }

  // Whether the query selects c from the given parts, whatever their order.
  ghost predicate Selects(world: World, parts: seq<Source>, q: Filters.Query, c: Cnpj) {
    match FilterOf(q.NormalizedFilters())
    case None => false
    case Some(f) => exists i :: 0 <= i < |parts| && SelectedIn(c, world.files, f, parts[i])
  }

  // Whether it selects c from the establishment files of a dataset's manifest.
  ghost predicate DatasetSelects(world: World, dataset: string, q: Filters.Query, c: Cnpj) {
    dataset in world.manifests
    && match FilterOf(q.NormalizedFilters())
       case None => false
       case Some(f) => exists u :: u in world.manifests[dataset].establishments && SelectedIn(c, world.files, f, Source(u, true))
  }

  function ContentsOf(world: World, sources: seq<Source>): (parts: seq<seq<Row>>)
    ensures |parts| == |sources|
    ensures forall i :: 0 <= i < |sources| ==> parts[i] == if sources[i] in world.files then world.files[sources[i]] else []
  {
    if sources == [] then []
    else [if sources[0] in world.files then world.files[sources[0]] else []] + ContentsOf(world, sources[1..])
  }

  lemma CnpjsOfAppend(xs: seq<Establishment>, ys: seq<Establishment>)
    ensures CnpjsOf(xs + ys) == CnpjsOf(xs) + CnpjsOf(ys)
  {
    var zs := xs + ys;
    forall c ensures c in CnpjsOf(zs) <==> c in CnpjsOf(xs) || c in CnpjsOf(ys) {
      if c in CnpjsOf(xs) {
        var i :| 0 <= i < |xs| && xs[i].Cnpj() == c;
        assert zs[i] == xs[i];
      }
      if c in CnpjsOf(ys) {
        var i :| 0 <= i < |ys| && ys[i].Cnpj() == c;
        assert zs[|xs| + i] == ys[i];
      }
    }
  }

  // The hits of the concatenated parts are the hits of the parts.
  lemma {:induction false} HitsOfParts(parts: seq<seq<Row>>, f: Filter, c: Cnpj)
    ensures c in CnpjsOf(LimitedScan.Hits(Flat(parts), Wanted(f))) <==> exists i :: 0 <= i < |parts| && c in CnpjsOf(PartHits(parts[i], f))
  {
    hide Wanted, LimitedScan.Hits, NonBlank, CnpjsOf;
    if parts == [] {
      NoHits(f);
    } else {
      LimitedScan.HitsAppend(NonBlank(parts[0]), Flat(parts[1..]), Wanted(f));
      CnpjsOfAppend(PartHits(parts[0], f), LimitedScan.Hits(Flat(parts[1..]), Wanted(f)));
      HitsOfParts(parts[1..], f, c);
      if exists i :: 0 <= i < |parts| && c in CnpjsOf(PartHits(parts[i], f)) {
        var i :| 0 <= i < |parts| && c in CnpjsOf(PartHits(parts[i], f));
        assert i > 0 ==> parts[1..][i - 1] == parts[i];
      }
      if exists i :: 0 <= i < |parts[1..]| && c in CnpjsOf(PartHits(parts[1..][i], f)) {
        var i :| 0 <= i < |parts[1..]| && c in CnpjsOf(PartHits(parts[1..][i], f));
        assert parts[i + 1] == parts[1..][i];
      }
    }
  }

  lemma NoHits(f: Filter)
    ensures CnpjsOf(LimitedScan.Hits([], Wanted(f))) == {} && Flat([]) == []
  {
  }

  // ------------------------------------------------------------------------- the system

  // `get_or_create` for each ingested match, in order.
  function AppendResults(rs: seq<Cnpj>, es: seq<Establishment>): seq<Cnpj>
    decreases |es|
  {
    if es == [] then rs
    else AppendResults(if es[0].Cnpj() in rs then rs else rs + [es[0].Cnpj()], es[1..])
  }

  lemma ElemsNext(rs: seq<Cnpj>, c: Cnpj)
    ensures Elems(rs + [c]) == Elems(rs) + {c}
    ensures c in rs <==> c in Elems(rs)
  {
    var xs := rs + [c];
    forall d ensures d in Elems(xs) <==> d in Elems(rs) || d == c {
      if d in Elems(rs) {
        var i :| 0 <= i < |rs| && rs[i] == d;
        assert xs[i] == d;
      }
      assert xs[|rs|] == c;
    }
  }

  lemma {:induction false} AppendResultsIs(rs: seq<Cnpj>, es: seq<Establishment>)
    requires NoRepeats(rs)
    ensures NoRepeats(AppendResults(rs, es)) && Elems(AppendResults(rs, es)) == Elems(rs) + CnpjsOf(es)
    ensures CnpjsOf(es) <= Elems(rs) ==> AppendResults(rs, es) == rs
    decreases |es|
  {
    if es != [] {
      var c := es[0].Cnpj();
      ElemsNext(rs, c);
      var next := if c in rs then rs else rs + [c];
      assert es == [es[0]] + es[1..];
      CnpjsOfAppend([es[0]], es[1..]);
      assert CnpjsOf([es[0]]) == {c} by {
        assert [es[0]][0].Cnpj() == c;
      }
      AppendResultsIs(next, es[1..]);
    }
  }

  // The ordered results and the results table of the ingestion hold the same companies.
  ghost predicate SameResults(db: Db, r: RunId, rs: seq<Cnpj>) {
    forall c :: (r, c) in db.results <==> c in rs
  }

  lemma {:induction false} ResultsFollowTheStore(db: Db, r: RunId, rs: seq<Cnpj>, es: seq<Establishment>)
    requires SameResults(db, r, rs)
    ensures SameResults(ApplyAll(db, r, RowOps(es)), r, AppendResults(rs, es))
    decreases |es|
  {
    hide AfterCompanies, AfterRegistry, AfterCnaes, AfterRecords, AfterCandidates, CanonicalFields;
    if es == [] {
      ApplyNoRows(db, r);
    } else {
      var next := Apply(db, r, RowOp(es[0]));
      assert RowOps(es)[1..] == RowOps(es[1..]);
      ResultsFollowTheStore(next, r, if es[0].Cnpj() in rs then rs else rs + [es[0].Cnpj()], es[1..]);
    }
  }

  // Joins add no results.
  lemma {:induction false} NoRowsNoResults(db: Db, r: RunId, ops: seq<Op>)
    requires NoRows(ops)
    ensures ApplyAll(db, r, ops).results == db.results
    decreases |ops|
  {
    hide AfterCompanies, AfterRegistry, AfterCnaes, AfterRecords, AfterCandidates, CanonicalFields;
    if ops != [] {
      assert ops[0] == ops[0] && !ops[0].RowOp?;
      assert forall i :: 0 <= i < |ops[1..]| ==> ops[1..][i] == ops[i + 1];
      NoRowsNoResults(Apply(db, r, ops[0]), r, ops[1..]);
    }
  }

  /** What a run commits to the results table is what the steps below append to its ordered results. */
  lemma RunResultsFollowTheStore(db: Db, r: RunId, rs: seq<Cnpj>, inputs: Inputs)
    requires SameResults(db, r, rs)
    ensures SameResults(ApplyAll(db, r, Discover(inputs, db.candidates, r).ops), r, AppendResults(rs, ScanOf(inputs).found))
  {
    hide ApplyAll, Discover, RowOps, AppendResults, ScanOf, NoRows;
    var rows, ops := RowOps(ScanOf(inputs).found), Discover(inputs, db.candidates, r).ops;
    RowsComeFirst(inputs, db.candidates, r);
    assert ops == rows + ops[|rows|..];
    ApplyAllAppend(db, r, rows, ops[|rows|..]);
    ResultsFollowTheStore(db, r, rs, ScanOf(inputs).found);
    NoRowsNoResults(ApplyAll(db, r, rows), r, ops[|rows|..]);
  }

  // Interrupted: the worker died (Running) or an error was caught (Failed) after so many commits.
  datatype Event =
    | Create(run: RunId, query: Filters.Query, payload: JobPayload)
    | Interrupted(run: RunId, plan: Plan, filter: Filter, committed: nat, status: Status)
    | Execute(run: RunId, plan: Plan, filter: Filter, staged: ComplementJoin.Candidates)
    | CacheHit(run: RunId, query: Filters.Query, dataset: string, at: Time, max: nat)

  function InputsOf(world: World, plan: Plan, f: Filter): Inputs {
    Inputs(if plan.full then Full else Preview, plan.maxResults, f,
           ContentsOf(world, plan.establishments), ContentsOf(world, plan.companies), ContentsOf(world, plan.simples))
  }

  // The plan comes from the run's own payload under some settings.
  ghost predicate PlannedFrom(world: World, payload: JobPayload, plan: Plan) {
    exists settings :: PlanOf(payload, settings, world.manifests) == Ok(plan)
  }

  // The run's job was queued with its query's filters, and its payload passed the checks.
  ghost predicate Accepted(world: World, row: RunRow, plan: Plan, f: Filter) {
    row.origin.Queued? && FilterOf(row.query.NormalizedFilters()) == Some(f) && PlannedFrom(world, row.origin.payload, plan)
  }

  function AfterExecution(c: Cache, r: RunId, dataset: string, status: Status, found: seq<Establishment>): Cache
    requires r in c.runs && r in c.results
  {
    c.(runs := c.runs[r := c.runs[r].(dataset := dataset, status := status)],
       results := c.results[r := AppendResults(c.results[r], found)])
  }

  ghost predicate Next(world: World, c: Cache, e: Event, d: Cache) {
    match e
    case Create(r, q, payload) =>
      r !in c.runs && q.Valid()
      && d == c.(runs := c.runs[r := RunRow(q, payload.datasetReference, Queued(payload), Pending)], results := c.results[r := []])
    case Interrupted(r, plan, f, k, status) =>
      r in c.runs && r in c.results && Accepted(world, c.runs[r], plan, f) && status in {Running, Failed}
      && d == AfterExecution(c, r, plan.dataset, status, LimitedScan.Take(ScanOf(InputsOf(world, plan, f)).found, k))
    case Execute(r, plan, f, staged) =>
      r in c.runs && r in c.results && Accepted(world, c.runs[r], plan, f)
      && (forall i :: 0 <= i < |plan.establishments| ==> plan.establishments[i] in world.files)
      && (var inputs := InputsOf(world, plan, f);
          var done := AfterExecution(c, r, plan.dataset, Discover(inputs, staged, r).status, ScanOf(inputs).found);
          d == if plan.coverageComplete && done.runs[r].status == Succeeded then RecordCoverage(done, r, None) else done)
    case CacheHit(r, q, dataset, at, max) =>
      r !in c.runs && q.Valid() && max >= 1
      && FindValid(c, dataset, q, at).Some? && FindValid(c, dataset, q, at).value.run in c.results
      && d == Materialize(c, dataset, q, FindValid(c, dataset, q, at).value, max, r)
  }

  // ---------------------------------------------------------------------- the invariant

  ghost predicate Within(world: World, row: RunRow, rs: seq<Cnpj>) {
    row.query.Valid() && NoRepeats(rs) && forall c :: c in Elems(rs) ==> Selects(world, row.origin.Parts(), row.query, c)
  }

  ghost predicate CompleteFor(world: World, parts: seq<Source>, q: Filters.Query, rs: seq<Cnpj>) {
    forall c :: Selects(world, parts, q, c) ==> c in Elems(rs)
  }

  // Queued for the dataset with a payload whose plan was accepted as complete.
  ghost predicate CompletelyPlanned(world: World, origin: Origin, dataset: string) {
    origin.Queued? && exists plan :: PlannedFrom(world, origin.payload, plan) && plan.coverageComplete && plan.dataset == dataset
  }

  ghost predicate EntryIsComplete(world: World, c: Cache, key: Key, entry: Entry) {
    && entry.run in c.runs && entry.run in c.results && key == KeyOf(c.runs[entry.run])
    && CompletelyPlanned(world, c.runs[entry.run].origin, key.0)
    && CompleteFor(world, c.runs[entry.run].origin.Parts(), c.runs[entry.run].query, c.results[entry.run])
    && entry.recordCount == |c.results[entry.run]|
  }

  ghost predicate Inv(world: World, c: Cache) {
    && (forall r :: r in c.runs ==> r in c.results && Within(world, c.runs[r], c.results[r]))
    && (forall k :: k in c.entries ==> EntryIsComplete(world, c, k, c.entries[k]))
  }

  // A plan reads the parts its payload names, for the dataset its payload names.
  lemma PlanIsOfPayload(world: World, payload: JobPayload, plan: Plan)
    requires PlannedFrom(world, payload, plan)
    ensures Queued(payload).Parts() == plan.establishments && plan.dataset == Strip(payload.datasetReference)
  {
    hide PlanOf, EstablishmentSources, OptionalSources, Strip;
    var settings :| PlanOf(payload, settings, world.manifests) == Ok(plan);
    CheckedIsThePlan(payload, settings, world.manifests);
  }

  // Whatever a scan keeps is among the hits of all the rows.
  lemma ScanKeepsHits(rows: seq<Row>, f: Filter, limit: nat)
    ensures CnpjsOf(LimitedScan.ScanLimited(rows, Judge(f), limit).found) <= CnpjsOf(LimitedScan.Hits(rows, Wanted(f)))
  {
    hide Judge, Wanted, LimitedScan.Hits, LimitedScan.ScanLimited, LimitedScan.Readable;
    var wanted := Wanted(f);
    var taken := LimitedScan.Readable(rows, Judge(f));
    LimitedScan.ScanIsFirstHits(rows, Judge(f), limit);
    TakenRowsAreWanted(rows, f);
    assert rows == taken + rows[|taken|..];
    LimitedScan.HitsAppend(taken, rows[|taken|..], wanted);
    TakeKeeps(LimitedScan.Hits(taken, wanted), limit);
    CnpjsOfAppend(LimitedScan.Hits(taken, wanted), LimitedScan.Hits(rows[|taken|..], wanted));
  }

  lemma TakeKeeps(es: seq<Establishment>, n: nat)
    ensures CnpjsOf(LimitedScan.Take(es, n)) <= CnpjsOf(es)
  {
  }

  lemma FoundIsSelected(world: World, row: RunRow, plan: Plan, f: Filter)
    requires Accepted(world, row, plan, f)
    ensures forall c :: c in CnpjsOf(ScanOf(InputsOf(world, plan, f)).found) ==> Selects(world, row.origin.Parts(), row.query, c)
  {
    hide Judge, Wanted, CnpjsOf, PlannedFrom, FilterOf, Flat, LimitedScan.Hits, LimitedScan.ScanLimited, PartHits, EstablishmentSources;
    PlanIsOfPayload(world, row.origin.payload, plan);
    var parts := ContentsOf(world, plan.establishments);
    ScanKeepsHits(Flat(parts), f, plan.maxResults);
    NoneFound();
    NothingSelectedIn(f);
    forall c | c in CnpjsOf(ScanOf(InputsOf(world, plan, f)).found) ensures Selects(world, row.origin.Parts(), row.query, c) {
      HitsOfParts(parts, f, c);
      var i :| 0 <= i < |parts| && c in CnpjsOf(PartHits(parts[i], f));
      assert SelectedIn(c, world.files, f, plan.establishments[i]);
    }
  }

  lemma NoneFound()
    ensures CnpjsOf([]) == {}
  {
  }

  lemma NothingSelectedIn(f: Filter)
    ensures CnpjsOf(PartHits([], f)) == {}
  {
  }

  /** A succeeded run finds every company its query selects from the parts its payload names. */
  lemma SucceededFindsEverything(world: World, row: RunRow, plan: Plan, f: Filter, staged: ComplementJoin.Candidates, r: RunId, c: Cnpj)
    requires Accepted(world, row, plan, f) && forall i :: 0 <= i < |plan.establishments| ==> plan.establishments[i] in world.files
    requires Discover(InputsOf(world, plan, f), staged, r).status == Succeeded
    requires Selects(world, row.origin.Parts(), row.query, c)
    ensures c in CnpjsOf(ScanOf(InputsOf(world, plan, f)).found)
  {
    hide Judge, Wanted, CnpjsOf, PlannedFrom, FilterOf, Flat, LimitedScan.Hits, LimitedScan.ScanLimited, PartHits, Discover,
         ListedAfter, EstablishmentSources, AllFit;
    PlanIsOfPayload(world, row.origin.payload, plan);
    var inputs := InputsOf(world, plan, f);
    SucceededExactly(inputs, staged, r);
    AllTakenExactly(Flat(inputs.parts), f);
    ShortAndReadable(Flat(inputs.parts), Judge(f), inputs.maxResults);
    LimitedScan.ScanBounds(Flat(inputs.parts), Judge(f), inputs.maxResults);
    LimitedScan.ShortOfLimitIsExhaustive(Flat(inputs.parts), Judge(f), inputs.maxResults);
    var i :| 0 <= i < |plan.establishments| && SelectedIn(c, world.files, f, plan.establishments[i]);
    assert inputs.parts[i] == world.files[plan.establishments[i]];
    HitsOfParts(inputs.parts, f, c);
  }

  lemma WithinAfter(world: World, row: RunRow, dataset: string, status: Status, rs: seq<Cnpj>, es: seq<Establishment>)
    requires Within(world, row, rs) && forall c :: c in CnpjsOf(es) ==> Selects(world, row.origin.Parts(), row.query, c)
    ensures Within(world, row.(dataset := dataset, status := status), AppendResults(rs, es))
  {
    hide Selects, AppendResults, CnpjsOf, Elems, EstablishmentSources;
    AppendResultsIs(rs, es);
  }

  // Executing a run again leaves every entry complete, and the results behind it as they were.
  lemma ExecutionKeepsInv(world: World, c: Cache, r: RunId, plan: Plan, status: Status, es: seq<Establishment>)
    requires Inv(world, c) && r in c.runs && c.runs[r].origin.Queued? && PlannedFrom(world, c.runs[r].origin.payload, plan)
    requires forall x :: x in CnpjsOf(es) ==> Selects(world, c.runs[r].origin.Parts(), c.runs[r].query, x)
    ensures Inv(world, AfterExecution(c, r, plan.dataset, status, es))
  {
    hide Selects, AppendResults, CnpjsOf, Elems, Within, Filters.ScopeHash, PlannedFrom, EstablishmentSources, Strip;
    var d := AfterExecution(c, r, plan.dataset, status, es);
    WithinAfter(world, c.runs[r], plan.dataset, status, c.results[r], es);
    PlanIsOfPayload(world, c.runs[r].origin.payload, plan);
    forall k | k in d.entries ensures EntryIsComplete(world, d, k, d.entries[k]) {
      assert EntryIsComplete(world, c, k, c.entries[k]);
      if c.entries[k].run == r {
        NothingNew(world, c.runs[r], c.results[r], es);
        var other :| PlannedFrom(world, c.runs[r].origin.payload, other) && other.coverageComplete && other.dataset == k.0;
        PlanIsOfPayload(world, c.runs[r].origin.payload, other);
      }
    }
  }

  lemma NothingNew(world: World, row: RunRow, rs: seq<Cnpj>, es: seq<Establishment>)
    requires Within(world, row, rs) && CompleteFor(world, row.origin.Parts(), row.query, rs)
    requires forall c :: c in CnpjsOf(es) ==> Selects(world, row.origin.Parts(), row.query, c)
    ensures AppendResults(rs, es) == rs
  {
    hide Selects, AppendResults, CnpjsOf, Elems, EstablishmentSources;
    AppendResultsIs(rs, es);
  }

  lemma RecordKeepsInv(world: World, c: Cache, r: RunId)
    requires Inv(world, c) && r in c.runs && CompletelyPlanned(world, c.runs[r].origin, c.runs[r].dataset)
    requires CompleteFor(world, c.runs[r].origin.Parts(), c.runs[r].query, c.results[r])
    ensures Inv(world, RecordCoverage(c, r, None))
  {
    hide Selects, Within, CompleteFor, Filters.ScopeHash, CompletelyPlanned, EstablishmentSources;
    var d := RecordCoverage(c, r, None);
    forall k | k in d.entries ensures EntryIsComplete(world, d, k, d.entries[k]) {
      if k != KeyOf(c.runs[r]) {
        assert EntryIsComplete(world, c, k, c.entries[k]);
      }
    }
  }

  lemma ExecuteKeepsInv(world: World, c: Cache, e: Event, d: Cache)
    requires Inv(world, c) && e.Execute? && Next(world, c, e, d)
    ensures Inv(world, d)
  {
    hide Selects, AppendResults, CnpjsOf, PlannedFrom, Within, CompleteFor, Filters.ScopeHash, FilterOf, ScanOf, Discover, RecordCoverage,
         Inv, InputsOf, EstablishmentSources;
    var r, row, plan := e.run, c.runs[e.run], e.plan;
    var inputs := InputsOf(world, plan, e.filter);
    var status, found := Discover(inputs, e.staged, r).status, ScanOf(inputs).found;
    FoundIsSelected(world, row, plan, e.filter);
    ExecutionKeepsInv(world, c, r, plan, status, found);
    var done := AfterExecution(c, r, plan.dataset, status, found);
    if plan.coverageComplete && status == Succeeded {
      forall x | Selects(world, row.origin.Parts(), row.query, x) ensures x in CnpjsOf(found) {
        SucceededFindsEverything(world, row, plan, e.filter, e.staged, r, x);
      }
      RunIsWithin(world, c, r);
      CompleteAfter(world, row, c.results[r], found);
      assert CompletelyPlanned(world, row.origin, plan.dataset);
      RecordKeepsInv(world, done, r);
    }
  }

  lemma RunIsWithin(world: World, c: Cache, r: RunId)
    requires Inv(world, c) && r in c.runs
    ensures r in c.results && Within(world, c.runs[r], c.results[r])
  {
  }

  lemma CompleteAfter(world: World, row: RunRow, rs: seq<Cnpj>, es: seq<Establishment>)
    requires Within(world, row, rs) && forall c :: Selects(world, row.origin.Parts(), row.query, c) ==> c in CnpjsOf(es)
    ensures CompleteFor(world, row.origin.Parts(), row.query, AppendResults(rs, es))
  {
    hide Selects, AppendResults, CnpjsOf, Elems, EstablishmentSources;
    AppendResultsIs(rs, es);
  }

  /** Queries with equal scopes select the same companies from the same parts and from the same dataset. */
  lemma EqualScopesSelectAlike(world: World, p: Filters.Query, q: Filters.Query)
    requires p.Valid() && q.Valid() && Filters.ScopeHash(p) == Filters.ScopeHash(q)
    ensures forall parts, c :: Selects(world, parts, p, c) <==> Selects(world, parts, q, c)
    ensures forall dataset, c :: DatasetSelects(world, dataset, p, c) <==> DatasetSelects(world, dataset, q, c)
  {
    hide Filters.ScopeHash, FilterOf, SelectedIn, Filters.Norm;
    Filters.ScopeHashIff(p, q);
  }

  lemma TakeResults(rs: seq<Cnpj>, max: nat)
    ensures Elems(LimitedScan.Take(rs, max)) <= Elems(rs)
    ensures NoRepeats(rs) ==> NoRepeats(LimitedScan.Take(rs, max))
  {
  }

  // The parts behind the entry a cache hit finds.
  function PartsBehind(c: Cache, dataset: string, q: Filters.Query, at: Time): seq<Source> {
    match FindValid(c, dataset, q, at)
    case Some(entry) => if entry.run in c.runs then c.runs[entry.run].origin.Parts() else []
    case None => []
  }

  // What a cache hit finds: a complete run of an equivalent query.
  lemma FoundEntry(world: World, c: Cache, dataset: string, q: Filters.Query, at: Time)
    requires Inv(world, c) && q.Valid() && FindValid(c, dataset, q, at).Some?
    ensures var r := FindValid(c, dataset, q, at).value.run;
      && r in c.runs && r in c.results && c.runs[r].dataset == dataset && c.runs[r].status == Succeeded
      && c.runs[r].query.Valid() && Filters.ScopeHash(c.runs[r].query) == Filters.ScopeHash(q)
      && Within(world, c.runs[r], c.results[r]) && CompleteFor(world, c.runs[r].origin.Parts(), c.runs[r].query, c.results[r])
      && CompletelyPlanned(world, c.runs[r].origin, dataset)
  {
    hide Selects, CompleteFor, Filters.ScopeHash, CompletelyPlanned, EstablishmentSources;
    var key := (dataset, Filters.ScopeHash(q));
    assert EntryIsComplete(world, c, key, c.entries[key]);
  }

  lemma CacheHitKeepsInv(world: World, c: Cache, e: Event, d: Cache)
    requires Inv(world, c) && e.CacheHit? && Next(world, c, e, d)
    ensures Inv(world, d)
  {
    hide Selects, CompleteFor, Filters.ScopeHash, CompletelyPlanned, EstablishmentSources;
    FoundEntry(world, c, e.dataset, e.query, e.at);
    var source := FindValid(c, e.dataset, e.query, e.at).value.run;
    TakeResults(c.results[source], e.max);
    EqualScopesSelectAlike(world, c.runs[source].query, e.query);
    assert Within(world, d.runs[e.run], d.results[e.run]);
    forall k | k in d.entries ensures EntryIsComplete(world, d, k, d.entries[k]) {
      assert EntryIsComplete(world, c, k, c.entries[k]);
    }
  }

  lemma NextKeepsInv(world: World, c: Cache, e: Event, d: Cache)
    requires Inv(world, c) && Next(world, c, e, d)
    ensures Inv(world, d)
  {
    hide Selects, CompleteFor, Filters.ScopeHash, PlannedFrom, ScanOf, Discover, CnpjsOf, InputsOf, LimitedScan.Take, AppendResults, Inv,
         RecordCoverage, Materialize, FindValid, FilterOf, EstablishmentSources;
    match e
    case Execute(_, _, _, _) => ExecuteKeepsInv(world, c, e, d);
    case CacheHit(_, _, _, _, _) => CacheHitKeepsInv(world, c, e, d);
    case Interrupted(r, plan, f, k, status) =>
      FoundIsSelected(world, c.runs[r], plan, f);
      TakeKeeps(ScanOf(InputsOf(world, plan, f)).found, k);
      ExecutionKeepsInv(world, c, r, plan, status, LimitedScan.Take(ScanOf(InputsOf(world, plan, f)).found, k));
    case Create(_, _, _) =>
      CreateKeepsInv(world, c, e, d);
  }

  lemma CreateKeepsInv(world: World, c: Cache, e: Event, d: Cache)
    requires Inv(world, c) && e.Create? && Next(world, c, e, d)
    ensures Inv(world, d)
  {
    hide Selects, CompleteFor, Filters.ScopeHash, CompletelyPlanned, EstablishmentSources;
    assert Elems([]) == {};
    assert Within(world, d.runs[e.run], []);
    forall k | k in d.entries ensures EntryIsComplete(world, d, k, d.entries[k]) {
      assert EntryIsComplete(world, c, k, c.entries[k]);
    }
  }

  ghost predicate IsRun(world: World, cs: seq<Cache>, es: seq<Event>) {
    |cs| == |es| + 1 && cs[0] == Cache(map[], map[], map[]) && forall i :: 0 <= i < |es| ==> Next(world, cs[i], es[i], cs[i + 1])
  }

  /**
   In every reachable state results are companies selected from the parts their run names, and every
   entry holds all of them, whether those parts are URLs or local paths.
   */
  lemma {:induction false} RunKeepsInv(world: World, cs: seq<Cache>, es: seq<Event>, i: nat)
    requires IsRun(world, cs, es) && i < |cs|
    ensures Inv(world, cs[i])
  {
    hide Next, Within, EntryIsComplete;
    if i > 0 {
      RunKeepsInv(world, cs, es, i - 1);
      NextKeepsInv(world, cs[i - 1], es[i - 1], cs[i]);
    }
  }

  /**
   A cache hit agrees with recomputation: not truncated, it holds exactly the companies a full scan
   of the parts behind the entry selects for the query at hand; truncated, it is PARTIAL and holds
   exactly `max` of them.
   */
  lemma CacheHitIsRecomputation(world: World, cs: seq<Cache>, es: seq<Event>, i: nat)
    requires IsRun(world, cs, es) && i < |es| && es[i].CacheHit?
    ensures var e, rs := es[i], cs[i + 1].results[es[i].run]; var status := cs[i + 1].runs[es[i].run].status;
      var parts := PartsBehind(cs[i], e.dataset, e.query, e.at);
      && NoRepeats(rs) && (forall c :: c in Elems(rs) ==> Selects(world, parts, e.query, c))
      && (status == Succeeded ==> forall c :: Selects(world, parts, e.query, c) ==> c in Elems(rs))
      && (status != Succeeded ==> status == Partial && |rs| == e.max
                                  && exists c :: Selects(world, parts, e.query, c) && c !in Elems(rs))
  {
    hide Selects, Filters.ScopeHash, CompletelyPlanned, EstablishmentSources;
    var e, c := es[i], cs[i];
    RunKeepsInv(world, cs, es, i);
    RunKeepsInv(world, cs, es, i + 1);
    assert Next(world, c, e, cs[i + 1]);
    FoundEntry(world, c, e.dataset, e.query, e.at);
    var r := FindValid(c, e.dataset, e.query, e.at).value.run;
    assert Within(world, cs[i + 1].runs[e.run], cs[i + 1].results[e.run]);
    EqualScopesSelectAlike(world, c.runs[r].query, e.query);
    if cs[i + 1].runs[e.run].status != Succeeded {
      var cut := c.results[r][e.max];
      assert cut in Elems(c.results[r]);
      assert Selects(world, c.runs[r].origin.Parts(), c.runs[r].query, cut);
      assert cut !in Elems(cs[i + 1].results[e.run]);
    }
  }

  // ------------------------------------------------------------ parts and the dataset

  // Some part behind the entry is a URL: the plan was a remote one.
  predicate FromUrls(parts: seq<Source>) {
    exists i :: 0 <= i < |parts| && parts[i].isUrl
  }

  lemma NamedPartsSelect(world: World, files: set<Url>, parts: seq<Source>, f: Filter, c: Cnpj)
    requires Names(parts, files)
    ensures (exists i :: 0 <= i < |parts| && SelectedIn(c, world.files, f, parts[i]))
       <==> exists u :: u in files && SelectedIn(c, world.files, f, Source(u, true))
  {
    hide SelectedIn;
    if i :| 0 <= i < |parts| && SelectedIn(c, world.files, f, parts[i]) {
      assert parts[i] == Source(parts[i].value, true) && parts[i].value in files;
    }
    if u :| u in files && SelectedIn(c, world.files, f, Source(u, true)) {
      var i :| 0 <= i < |parts| && parts[i].value == u;
      assert parts[i] == Source(u, true);
    }
  }

  lemma NamedPartsSelectTheDataset(world: World, dataset: string, parts: seq<Source>, q: Filters.Query)
    requires dataset in world.manifests && Names(parts, world.manifests[dataset].establishments)
    ensures forall c :: Selects(world, parts, q, c) <==> DatasetSelects(world, dataset, q, c)
  {
    hide SelectedIn, FilterOf, Names;
    var filter := FilterOf(q.NormalizedFilters());
    forall c ensures Selects(world, parts, q, c) <==> DatasetSelects(world, dataset, q, c) {
      if filter.Some? {
        NamedPartsSelect(world, world.manifests[dataset].establishments, parts, filter.value, c);
      }
    }
  }

  /**
   Against the dataset: an untruncated hit holds exactly what the manifest's files select, or misses or
   adds a company, exactly as the parts behind its entry do; parts given as URLs always agree.
   */
  lemma CacheHitAgainstDataset(world: World, cs: seq<Cache>, es: seq<Event>, i: nat)
    requires IsRun(world, cs, es) && i < |es| && es[i].CacheHit? && cs[i + 1].runs[es[i].run].status == Succeeded
    ensures var e, rs := es[i], Elems(cs[i + 1].results[es[i].run]); var parts := PartsBehind(cs[i], e.dataset, e.query, e.at);
      && (forall c :: (c in rs <==> DatasetSelects(world, e.dataset, e.query, c))
                 <==> (Selects(world, parts, e.query, c) <==> DatasetSelects(world, e.dataset, e.query, c)))
      && (FromUrls(parts) ==> forall c :: c in rs <==> DatasetSelects(world, e.dataset, e.query, c))
  {
    hide Selects, DatasetSelects, Filters.ScopeHash, EstablishmentSources, Next, Inv, CompleteFor, Within, PlanOf, Names;
    var e := es[i];
    var parts := PartsBehind(cs[i], e.dataset, e.query, e.at);
    CacheHitIsRecomputation(world, cs, es, i);
    if FromUrls(parts) {
      RunKeepsInv(world, cs, es, i);
      assert Next(world, cs[i], e, cs[i + 1]);
      HitIsValid(world, cs[i], e, cs[i + 1]);
      FoundEntry(world, cs[i], e.dataset, e.query, e.at);
      var payload := cs[i].runs[FindValid(cs[i], e.dataset, e.query, e.at).value.run].origin.payload;
      var plan :| PlannedFrom(world, payload, plan) && plan.coverageComplete && plan.dataset == e.dataset;
      PlanIsOfPayload(world, payload, plan);
      var settings :| PlanOf(payload, settings, world.manifests) == Ok(plan);
      RemoteIsSomeKind(plan);
      CompletePlanCoversManifest(payload, settings, world.manifests);
      NamedPartsSelectTheDataset(world, e.dataset, parts, e.query);
    }
  }

  lemma HitIsValid(world: World, c: Cache, e: Event, d: Cache)
    requires e.CacheHit? && Next(world, c, e, d)
    ensures e.query.Valid() && FindValid(c, e.dataset, e.query, e.at).Some?
  {
  }

  lemma {:induction false} NothingInEmptyParts(parts: seq<seq<Row>>)
    requires forall i :: 0 <= i < |parts| ==> parts[i] == []
    ensures Flat(parts) == []
  {
    if parts != [] {
      NothingInEmptyParts(parts[1..]);
    }
  }

  lemma EmptyPartsSucceed(world: World, f: Filter, settings: Settings, r: RunId)
    requires settings.fullMax >= 1 && f.IsSelective()
    requires Source("a.zip", false) in world.files && world.files[Source("a.zip", false)] == []
    ensures var inputs := InputsOf(world, TwicePlan(settings), f);
      ScanOf(inputs).found == [] && Discover(inputs, map[], r).status == Succeeded
  {
    hide ScanOf, Discover, ListedAfter;
    var inputs := InputsOf(world, TwicePlan(settings), f);
    NothingInEmptyParts(inputs.parts);
    SucceededExactly(inputs, map[], r);
    MatchesAreTheFirst(inputs, map[], r);
  }

  /**
   A reachable local-path run whose cache hit misses a company of the dataset: with an empty local part
   named twice, any company the dataset's files select is missing from the untruncated hit.
   */
  lemma LocalHitMisses(world: World, q: Filters.Query, f: Filter, c: Cnpj, settings: Settings) returns (cs: seq<Cache>, es: seq<Event>)
    requires q.Valid() && FilterOf(q.NormalizedFilters()) == Some(f) && f.IsSelective() && settings.fullMax >= 1
    requires Source("a.zip", false) in world.files && world.files[Source("a.zip", false)] == []
    requires DatasetSelects(world, "2026-01", q, c)
    ensures IsRun(world, cs, es) && |es| == 3 && es[2] == CacheHit(1, q, "2026-01", 0, 1)
    ensures 1 in cs[3].runs && 1 in cs[3].results && cs[3].runs[1].status == Succeeded && c !in Elems(cs[3].results[1])
  {
    hide FilterOf, Discover, ScanOf, Filters.ScopeHash, PlanOf, AppendResults, InputsOf, DatasetSelects, TwicePlan;
    var plan := TwicePlan(settings);
    EmptyPartsSucceed(world, f, settings, 0);
    LocalCompletenessIsACount(settings, world.manifests, path => path);
    TwicePlanReads(world, settings);
    assert PlannedFrom(world, TWICE, plan);
    var queued := RunRow(q, "2026-01", Queued(TWICE), Pending);
    var created := Cache(map[0 := queued], map[0 := []], map[]);
    NothingAppended([]);
    var done := Cache(map[0 := queued.(status := Succeeded)], map[0 := []], map[KeyOf(queued) := Entry(0, 0, None)]);
    var hit := Materialize(done, "2026-01", q, Entry(0, 0, None), 1, 1);
    cs, es := [Cache(map[], map[], map[]), created, done, hit], [Create(0, q, TWICE), Execute(0, plan, f, map[]), CacheHit(1, q, "2026-01", 0, 1)];
    var executed := AfterExecution(created, 0, plan.dataset, Succeeded, []);
    assert executed.runs == done.runs && executed.results == done.results;
    assert Next(world, cs[0], es[0], cs[1]) && Next(world, cs[1], es[1], cs[2]);
    assert Next(world, cs[2], es[2], cs[3]);
  }

  lemma NothingAppended(rs: seq<Cnpj>)
    ensures AppendResults(rs, []) == rs
  {
  }

  lemma TwicePlanReads(world: World, settings: Settings)
    requires settings.fullMax >= 1 && Source("a.zip", false) in world.files
    ensures var plan := TwicePlan(settings);
      && plan.dataset == "2026-01" && plan.coverageComplete
      && forall i :: 0 <= i < |plan.establishments| ==> plan.establishments[i] in world.files
  {
  }

  /** A preview never becomes coverage: it ends PARTIAL or FAILED and leaves every entry as it is. */
  lemma PreviewsCacheNothing(world: World, c: Cache, e: Event, d: Cache)
    requires e.Execute? && Next(world, c, e, d) && !e.plan.full
    ensures d.entries == c.entries && d.runs[e.run].status in {Partial, Failed}
  {
    hide FilterOf, Discover, InputsOf, PlanOf, AppendResults, ListedAfter;
    var settings :| PlanOf(c.runs[e.run].origin.payload, settings, world.manifests) == Ok(e.plan);
    PreviewIsSmall(c.runs[e.run].origin.payload, settings, world.manifests);
    PreviewEnds(InputsOf(world, e.plan, e.filter), e.staged, e.run);
    assert InputsOf(world, e.plan, e.filter).mode == Preview by { PreviewInputs(world, e.plan, e.filter); }
  }

  lemma PreviewInputs(world: World, plan: Plan, f: Filter)
    requires !plan.full
    ensures InputsOf(world, plan, f).mode == Preview
  {
  }

  lemma PreviewEnds(inputs: Inputs, staged: ComplementJoin.Candidates, r: RunId)
    ensures inputs.mode == Preview ==> Discover(inputs, staged, r).status in {Partial, Failed}
  {
    hide ScanOf, ListedAfter, ComplementJoin.JoinOf, PartsOpened, ComplementJoin.FilesOpened;
  }
}
