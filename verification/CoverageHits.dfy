/** When a later query is answered from the cache: from a complete run on, until something replaces it. */
module CoverageHits {
  import opened Basics
  import opened Ingestion
  import opened Discovery
  import Filters
  import LimitedScan
  import opened Coverage

  // Some result row of the run: the entry points at it, with its count, and never expires.
  ghost predicate Answers(c: Cache, key: Key, r: RunId, found: seq<Cnpj>) {
    && key in c.entries && c.entries[key] == Entry(r, |found|, None)
    && r in c.runs && c.runs[r].status == Succeeded
    && r in c.results && c.results[r] == found
  }

  // The step works on run r, or records another run of the same dataset and scope.
  ghost predicate Supersedes(e: Event, d: Cache, key: Key, r: RunId) {
    || ((e.Execute? || e.Interrupted?) && e.run == r)
    || (e.Execute? && e.plan.coverageComplete && e.run in d.runs && d.runs[e.run].status == Succeeded
        && (d.runs[e.run].dataset, Filters.ScopeHash(d.runs[e.run].query)) == key)
  }

  lemma CompleteRunIsRecorded(world: World, c: Cache, e: Event, d: Cache)
    requires Next(world, c, e, d) && e.Execute? && e.plan.coverageComplete && e.run in d.runs && d.runs[e.run].status == Succeeded
    ensures e.run in d.results
    ensures Answers(d, (d.runs[e.run].dataset, Filters.ScopeHash(d.runs[e.run].query)), e.run, d.results[e.run])
  {
    hide Filters.ScopeHash, Discover, InputsOf, AppendResults, Accepted;
  }

  lemma EntryStays(world: World, c: Cache, e: Event, d: Cache, key: Key, r: RunId, found: seq<Cnpj>)
    requires Next(world, c, e, d) && Answers(c, key, r, found) && !Supersedes(e, d, key, r)
    ensures Answers(d, key, r, found)
  {
    hide Filters.ScopeHash, Discover, InputsOf, AppendResults, Accepted, FindValid, LimitedScan.Take;
  }

  // The step ran a complete plan to success.
  ghost predicate Completes(e: Event, d: Cache) {
    e.Execute? && e.plan.coverageComplete && e.run in d.runs && d.runs[e.run].status == Succeeded && e.run in d.results
  }

  // The dataset and the scope that a run of the cache covers.
  ghost function Covered(d: Cache, r: RunId): Key
    requires r in d.runs
  {
    (d.runs[r].dataset, Filters.ScopeHash(d.runs[r].query))
  }

  // The query is answered with run r, which still has the results it had in d.
  ghost predicate AnsweredWith(c: Cache, q: Filters.Query, at: Time, d: Cache, r: RunId)
    requires r in d.runs && r in d.results
  {
    && Answers(c, (d.runs[r].dataset, Filters.ScopeHash(q)), r, d.results[r])
    && FindValid(c, d.runs[r].dataset, q, at) == Some(Entry(r, |d.results[r]|, None))
  }

  // The hit of the step copies the first results of run r, as many as it asks for.
  ghost predicate CopiesFirst(e: Event, after: Cache, d: Cache, r: RunId)
    requires e.CacheHit? && r in d.results
  {
    e.run in after.results && after.results[e.run] == d.results[r][..Min(e.max, |d.results[r]|)]
  }

  lemma AnswersAlways(c: Cache, q: Filters.Query, at: Time, d: Cache, r: RunId)
    requires r in d.runs && r in d.results && Answers(c, (d.runs[r].dataset, Filters.ScopeHash(q)), r, d.results[r])
    ensures AnsweredWith(c, q, at, d, r)
  {
    hide Filters.ScopeHash;
  }

  /**
   Once a run under a complete plan has succeeded, every query with the scope of its query on its dataset is
   answered with it, at every instant, and a hit copies its first results, until a step works on that run
   again or records another complete run of the same scope and dataset.
   */
  lemma {:induction false} CompleteRunsAnswer(world: World, cs: seq<Cache>, es: seq<Event>, i: nat, k: nat, q: Filters.Query, at: Time)
    requires IsRun(world, cs, es) && i < k < |cs| && Completes(es[i], cs[i + 1])
    requires Filters.ScopeHash(q) == Covered(cs[i + 1], es[i].run).1
    requires forall m :: i < m < k ==> !Supersedes(es[m], cs[m + 1], Covered(cs[i + 1], es[i].run), es[i].run)
    ensures AnsweredWith(cs[k], q, at, cs[i + 1], es[i].run)
    ensures k < |es| && es[k].CacheHit? && es[k].query == q && es[k].dataset == Covered(cs[i + 1], es[i].run).0 ==>
      CopiesFirst(es[k], cs[k + 1], cs[i + 1], es[i].run)
    decreases k
  {
    hide Next, Filters.ScopeHash, FindValid;
    var r, d := es[i].run, cs[i + 1];
    CompleteRunIsRecorded(world, cs[i], es[i], d);
    if k > i + 1 {
      CompleteRunsAnswer(world, cs, es, i, k - 1, q, at);
      EntryStays(world, cs[k - 1], es[k - 1], cs[k], Covered(d, r), r, d.results[r]);
    }
    AnswersAlways(cs[k], q, at, d, r);
    if k < |es| && es[k].CacheHit? && es[k].query == q && es[k].dataset == Covered(d, r).0 {
      HitCopies(world, cs[k], es[k], cs[k + 1], r, d.results[r]);
    }
  }

  lemma HitCopies(world: World, c: Cache, e: Event, d: Cache, r: RunId, found: seq<Cnpj>)
    requires Next(world, c, e, d) && e.CacheHit? && Answers(c, (e.dataset, Filters.ScopeHash(e.query)), r, found)
    ensures e.run in d.results && d.results[e.run] == found[..Min(e.max, |found|)]
  {
    hide Filters.ScopeHash;
    assert found[..|found|] == found;
  }
}
