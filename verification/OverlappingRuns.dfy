/**
 A worker that lost its lease goes on committing while the retry of its job runs: the tables after any
 interleaving of the two, each transaction one step.
 */
module OverlappingRuns {
  import opened Basics
  import opened Establishments
  import Complements
  import opened Ingestion
  import opened EstablishmentScan
  import opened ComplementJoin
  import opened Discovery

  // w interleaves u and v, each in its own order.
  ghost predicate Shuffle(w: seq<Op>, u: seq<Op>, v: seq<Op>)
    decreases |w|
  {
    if w == [] then u == [] && v == []
    else
      var init, z := w[..|w| - 1], w[|w| - 1];
      || (u != [] && u[|u| - 1] == z && Shuffle(init, u[..|u| - 1], v))
      || (v != [] && v[|v| - 1] == z && Shuffle(init, u, v[..|v| - 1]))
  }

  lemma {:induction false} ShuffleSwaps(w: seq<Op>, u: seq<Op>, v: seq<Op>)
    requires Shuffle(w, u, v)
    ensures Shuffle(w, v, u)
    decreases |w|
  {
    if w != [] {
      var init, z := w[..|w| - 1], w[|w| - 1];
      if u != [] && u[|u| - 1] == z && Shuffle(init, u[..|u| - 1], v) {
        ShuffleSwaps(init, u[..|u| - 1], v);
      } else {
        ShuffleSwaps(init, u, v[..|v| - 1]);
      }
    }
  }

  lemma {:induction false} ConcatIsShuffle(u: seq<Op>, v: seq<Op>)
    ensures Shuffle(u + v, u, v)
    decreases |u| + |v|
  {
    if v != [] {
      var init := v[..|v| - 1];
      assert (u + v)[..|u + v| - 1] == u + init;
      ConcatIsShuffle(u, init);
    } else if u != [] {
      var init := u[..|u| - 1];
      assert u + v == u && (u + v)[..|u + v| - 1] == init + v;
      ConcatIsShuffle(init, v);
    } else {
      assert u + v == [];
    }
  }

  // ------------------------------------------------------------------ two complete runs

  // The last transaction of v, taken out of the interleaving.
  lemma {:induction false} TakeOutLast(w: seq<Op>, u: seq<Op>, v: seq<Op>) returns (a: seq<Op>, b: seq<Op>)
    requires Shuffle(w, u, v) && v != []
    ensures w == a + [v[|v| - 1]] + b && Shuffle(a + b, u, v[..|v| - 1])
    decreases |w|
  {
    var init, z := w[..|w| - 1], w[|w| - 1];
    if v[|v| - 1] == z && Shuffle(init, u, v[..|v| - 1]) {
      a, b := init, [];
      assert a + b == init;
    } else {
      var c;
      a, c := TakeOutLast(init, u[..|u| - 1], v);
      b := c + [z];
      assert a + b == (a + c) + [z];
      assert (a + b)[..|a + b| - 1] == a + c;
    }
  }

  // An earlier commit of z does not show once z is committed again at the end.
  lemma LastAbsorbs(db: Db, run: RunId, a: seq<Op>, z: Op, b: seq<Op>)
    ensures ApplyAll(db, run, a + [z] + b + [z]) == ApplyAll(db, run, a + b + [z])
  {
    hide Apply, ApplyAll;
    var mid := ApplyAll(db, run, a);
    ApplyAllAppend(db, run, a, [z] + (b + [z]));
    ApplyAllAppend(db, run, a, b + [z]);
    ApplyOne(mid, run, z);
    ApplyAllAppend(mid, run, [z], b + [z]);
    AbsorbedByWord(mid, run, z, b);
    assert a + [z] + b + [z] == a + ([z] + (b + [z])) && a + b + [z] == a + (b + [z]);
  }

  lemma ApplyOne(db: Db, run: RunId, z: Op)
    ensures ApplyAll(db, run, [z]) == Apply(db, run, z)
  {
    assert [z][1..] == [];
  }

  /** Two workers that both commit every transaction of a run leave the tables of one, however they interleave. */
  lemma {:induction false} CompleteOverlapsConverge(db: Db, run: RunId, w: seq<Op>, ops: seq<Op>)
    requires Shuffle(w, ops, ops)
    ensures ApplyAll(db, run, w) == ApplyAll(db, run, ops)
    decreases |ops|
  {
    hide Apply, ApplyAll;
    if ops != [] {
      assert w != [];
      var init, rest, z := w[..|w| - 1], ops[..|ops| - 1], ops[|ops| - 1];
      assert w == init + [z] && ops == rest + [z];
      if !Shuffle(init, rest, ops) {
        ShuffleSwaps(init, ops, rest);
      }
      var a, b := TakeOutLast(init, rest, ops);
      LastAbsorbs(db, run, a, z, b);
      CompleteOverlapsConverge(db, run, a + b, rest);
      ApplyAllAppend(db, run, a + b, [z]);
      ApplyAllAppend(db, run, rest, [z]);
    }
  }

  // ------------------------------------------------------------ independent transactions

  // The same transaction, different companies, or different tables of one company.
  predicate Independent(x: Op, y: Op) {
    x == y || OpCnpj(x) != OpCnpj(y) || (x.RowOp? != y.RowOp?) || (x.CompanyOp? != y.CompanyOp?)
  }

  lemma UpdatesCommute<K, V>(m: map<K, V>, k: K, v: V, l: K, w: V)
    requires k != l
    ensures m[k := v][l := w] == m[l := w][k := v]
  {
  }

  lemma UpsertsCommute(m: map<Cnpj, Fields>, c: Cnpj, x: Fields, d: Cnpj, y: Fields)
    requires c != d
    ensures UpsertCompany(UpsertCompany(m, c, x), d, y) == UpsertCompany(UpsertCompany(m, d, y), c, x)
  {
    hide CompanyAfter;
    UpdatesCommute(m, c, CompanyAfter(if c in m then Some(m[c]) else None, x), d, CompanyAfter(if d in m then Some(m[d]) else None, y));
  }

  lemma RegistryCommutes(m: map<Cnpj, Fields>, c: Cnpj, x: Fields, d: Cnpj, y: Fields)
    requires c != d
    ensures UpdateRegistry(UpdateRegistry(m, c, x), d, y) == UpdateRegistry(UpdateRegistry(m, d, y), c, x)
  {
    hide Merge;
    UpdatesCommute(m, c, Merge(if c in m then m[c] else map[], x), d, Merge(if d in m then m[d] else map[], y));
  }

  lemma CnaesCommute(m: map<(Cnpj, string), Cnae>, c: Cnpj, p: string, xs: set<string>, s: RecordKey,
                     d: Cnpj, q: string, ys: set<string>, t: RecordKey)
    requires c != d
    ensures CnaesWith(CnaesWith(m, c, p, xs, s), d, q, ys, t) == CnaesWith(CnaesWith(m, d, q, ys, t), c, p, xs, s)
  {
    hide CnaesWith, CnaeAfter;
    var mx, my := CnaesWith(m, c, p, xs, s), CnaesWith(m, d, q, ys, t);
    forall k ensures CnaeAt(CnaesWith(mx, d, q, ys, t), k) == CnaeAt(CnaesWith(my, c, p, xs, s), k) {
      CnaesWithAt(m, c, p, xs, s, k);
      CnaesWithAt(m, d, q, ys, t, k);
      CnaesWithAt(mx, d, q, ys, t, k);
      CnaesWithAt(my, c, p, xs, s, k);
    }
    SameCnaes(CnaesWith(mx, d, q, ys, t), CnaesWith(my, c, p, xs, s));
  }

  lemma CompanyTablesCommute(db: Db, x: Op, y: Op)
    requires Independent(x, y)
    ensures AfterCompanies(AfterCompanies(db.companies, x), y) == AfterCompanies(AfterCompanies(db.companies, y), x)
    ensures AfterRegistry(AfterRegistry(db.registry, x), y) == AfterRegistry(AfterRegistry(db.registry, y), x)
    ensures AfterCnaes(AfterCnaes(db.cnaes, x), y) == AfterCnaes(AfterCnaes(db.cnaes, y), x)
  {
    hide UpsertCompany, UpdateRegistry, CnaesWith, CanonicalFields, CodeSet, OpKey;
    if x != y && x.RowOp? && y.RowOp? {
      UpsertsCommute(db.companies, x.e.Cnpj(), CanonicalFields(x.e), y.e.Cnpj(), CanonicalFields(y.e));
      CnaesCommute(db.cnaes, x.e.Cnpj(), x.e.primaryCnae, CodeSet(x.e.secondaryCnaes), OpKey(x),
                   y.e.Cnpj(), y.e.primaryCnae, CodeSet(y.e.secondaryCnaes), OpKey(y));
    } else if x != y && x.CompanyOp? && y.CompanyOp? {
      RegistryCommutes(db.registry, x.cnpj, x.fields, y.cnpj, y.fields);
    }
  }

  lemma RunTablesCommute(db: Db, run: RunId, x: Op, y: Op)
    requires Independent(x, y)
    ensures AfterRecords(AfterRecords(db.records, run, x), run, y) == AfterRecords(AfterRecords(db.records, run, y), run, x)
    ensures AfterCandidates(AfterCandidates(db.candidates, run, x), run, y) == AfterCandidates(AfterCandidates(db.candidates, run, y), run, x)
    ensures AfterCompanyPayloads(AfterCompanyPayloads(db.companyPayloads, run, x), run, y)
         == AfterCompanyPayloads(AfterCompanyPayloads(db.companyPayloads, run, y), run, x)
    ensures AfterSimplesPayloads(AfterSimplesPayloads(db.simplesPayloads, run, x), run, y)
         == AfterSimplesPayloads(AfterSimplesPayloads(db.simplesPayloads, run, y), run, x)
  {
    hide PayloadObservations;
  }

  lemma ResultsCommute(db: Db, run: RunId, x: Op, y: Op)
    requires Independent(x, y)
    ensures AfterResults(AfterResults(db.results, db.companies, run, x), AfterCompanies(db.companies, x), run, y)
         == AfterResults(AfterResults(db.results, db.companies, run, y), AfterCompanies(db.companies, y), run, x)
  {
    hide AfterCompanies;
    CompanyKeys(db.companies, x);
    CompanyKeys(db.companies, y);
  }

  lemma OpsCommute(db: Db, run: RunId, x: Op, y: Op)
    requires Independent(x, y)
    ensures Apply(Apply(db, run, x), run, y) == Apply(Apply(db, run, y), run, x)
  {
    hide AfterCompanies, AfterRegistry, AfterCnaes, AfterRecords, AfterResults, AfterCandidates, AfterCompanyPayloads,
         AfterSimplesPayloads, Independent;
    CompanyTablesCommute(db, x, y);
    RunTablesCommute(db, run, x, y);
    ResultsCommute(db, run, x, y);
  }

  ghost predicate AllIndependent(u: seq<Op>, v: seq<Op>) {
    forall x, y :: x in u && y in v ==> Independent(x, y)
  }

  lemma {:induction false} CommutesWithWord(db: Db, run: RunId, z: Op, v: seq<Op>)
    requires AllIndependent([z], v)
    ensures ApplyAll(Apply(db, run, z), run, v) == Apply(ApplyAll(db, run, v), run, z)
    decreases |v|
  {
    hide Apply, Independent;
    if v != [] {
      assert z in [z] && v[0] in v;
      OpsCommute(db, run, z, v[0]);
      CommutesWithWord(Apply(db, run, v[0]), run, z, v[1..]);
    }
  }

  // The end of v, seen from its start.
  lemma IndependentParts(u: seq<Op>, v: seq<Op>, a: seq<Op>, b: seq<Op>)
    requires AllIndependent(u, v) && (forall x :: x in a ==> x in u) && (forall y :: y in b ==> y in v)
    ensures AllIndependent(a, b)
  {
  }

  lemma {:induction false} ShuffleIsConcat(db: Db, run: RunId, w: seq<Op>, u: seq<Op>, v: seq<Op>)
    requires Shuffle(w, u, v) && AllIndependent(u, v)
    ensures ApplyAll(db, run, w) == ApplyAll(db, run, u + v)
    decreases |w|
  {
    hide Apply, ApplyAll, Independent, AllIndependent;
    if w == [] {
      assert u + v == [];
    } else {
      var init, z := w[..|w| - 1], w[|w| - 1];
      ApplyAllLast(db, run, w);
      if v != [] && v[|v| - 1] == z && Shuffle(init, u, v[..|v| - 1]) {
        IndependentParts(u, v, u, v[..|v| - 1]);
        ShuffleIsConcat(db, run, init, u, v[..|v| - 1]);
        assert (u + v)[..|u + v| - 1] == u + v[..|v| - 1];
        ApplyAllLast(db, run, u + v);
      } else {
        var rest := u[..|u| - 1];
        IndependentParts(u, v, rest, v);
        ShuffleIsConcat(db, run, init, rest, v);
        IndependentParts(u, v, [z], v);
        var mid := ApplyAll(db, run, rest);
        ApplyAllAppend(db, run, rest, v);
        CommutesWithWord(mid, run, z, v);
        ApplyAllLast(db, run, u);
        ApplyAllAppend(db, run, u, v);
      }
    }
  }

  // -------------------------------------------------------- a stale prefix and its retry

  /** When the transactions of a run are independent, any prefix a stale worker still commits changes nothing. */
  lemma StalePrefixConverges(db: Db, run: RunId, w: seq<Op>, ops: seq<Op>, k: nat)
    requires k <= |ops| && AllIndependent(ops, ops) && Shuffle(w, ops[..k], ops)
    ensures ApplyAll(db, run, w) == ApplyAll(db, run, ops)
  {
    hide ApplyAll, AllIndependent, Shuffle;
    IndependentParts(ops, ops, ops[..k], ops);
    ShuffleIsConcat(db, run, w, ops[..k], ops);
    ApplyAllAppend(db, run, ops[..k], ops);
    RerunConverges(db, run, ops, k);
  }

  // Different rows of the run never share a CNPJ.
  ghost predicate DistinctRows(es: seq<Establishment>) {
    forall i, j :: 0 <= i < j < |es| && es[i].Cnpj() == es[j].Cnpj() ==> es[i] == es[j]
  }

  // A transaction of a join: the record of the root of one listed candidate.
  ghost predicate JoinOp(x: Op, kind: Kind, records: seq<Complements.Record>, listed: seq<Staging>)
    requires Complements.FullRecords(records)
  {
    exists r, basico :: r in records && r[0] == basico && Staging(OpCnpj(x), basico) in listed && OpOf(kind, OpCnpj(x), r) == Some(x)
  }

  lemma {:induction false} AttachedOps(kind: Kind, cs: seq<Cnpj>, r: Complements.Record, x: Op)
    requires x in Attach(kind, cs, r).ops
    ensures OpCnpj(x) in cs && OpOf(kind, OpCnpj(x), r) == Some(x)
  {
    hide CompanyFields;
    var op := OpOf(kind, cs[0], r).value;
    assert Attach(kind, cs, r).ops == [op] + Attach(kind, cs[1..], r).ops;
    if x != op {
      AttachedOps(kind, cs[1..], r, x);
    }
  }

  lemma {:induction false} JoinOps(kind: Kind, records: seq<Complements.Record>, listed: seq<Staging>, x: Op)
    requires Complements.FullRecords(records) && x in AttachAll(kind, records, listed).ops
    ensures JoinOp(x, kind, records, listed)
  {
    hide Attach, Group, OpOf;
    var r, rest := records[0], records[1..];
    if x in Attach(kind, Group(listed, r[0]), r).ops {
      AttachedOps(kind, Group(listed, r[0]), r, x);
      assert r in records;
    } else {
      JoinOps(kind, rest, listed, x);
      var s, basico :| s in rest && s[0] == basico && Staging(OpCnpj(x), basico) in listed && OpOf(kind, OpCnpj(x), s) == Some(x);
      assert s in records;
    }
  }

  lemma SameKeySameRecord(records: seq<Complements.Record>, r: Complements.Record, s: Complements.Record)
    requires Complements.FullRecords(records) && Complements.OncePerKey(records) && r in records && s in records && r[0] == s[0]
    ensures r == s
  {
    var i :| 0 <= i < |records| && records[i] == r;
    var j :| 0 <= j < |records| && records[j] == s;
  }

  lemma JoinIsIndependent(kind: Kind, files: seq<seq<Row>>, listed: seq<Staging>, x: Op, y: Op)
    requires DistinctCnpjs(listed) && x in JoinOf(kind, files, listed).work.ops && y in JoinOf(kind, files, listed).work.ops
    ensures Independent(x, y) && !x.RowOp? && (x.CompanyOp? <==> kind == Companies)
  {
    hide AttachAll, Complements.ScanRows, CompanyFields, Complements.KeysOf;
    var records := Complements.ScanRows(Flat(files), Roots(listed)).records;
    Complements.ScanShape(Flat(files), Roots(listed));
    JoinOps(kind, records, listed, x);
    JoinOps(kind, records, listed, y);
    var r, b :| r in records && r[0] == b && Staging(OpCnpj(x), b) in listed && OpOf(kind, OpCnpj(x), r) == Some(x);
    var s, c :| s in records && s[0] == c && Staging(OpCnpj(y), c) in listed && OpOf(kind, OpCnpj(y), s) == Some(y);
    if OpCnpj(x) == OpCnpj(y) {
      assert Staging(OpCnpj(x), b) == Staging(OpCnpj(y), c);
      SameKeySameRecord(records, r, s);
    }
  }

  // Rows, then company records, then Simples records, as far as the run gets.
  lemma OpsOfDiscover(inputs: Inputs, m: Candidates, run: RunId, x: Op)
    requires x in Discover(inputs, m, run).ops
    ensures var listed := ListedAfter(inputs, m, run);
      x in RowOps(ScanOf(inputs).found) || x in JoinOf(Companies, inputs.companyFiles, listed).work.ops
      || x in JoinOf(Simples, inputs.simplesFiles, listed).work.ops
  {
    hide ScanParts, JoinOf, Listed, Staged, RowOps, PartsOpened, FilesOpened;
  }

  lemma DiscoverIsIndependent(inputs: Inputs, m: Candidates, run: RunId)
    requires DistinctRows(ScanOf(inputs).found)
    ensures var ops := Discover(inputs, m, run).ops; AllIndependent(ops, ops)
  {
    hide Discover, ScanParts, JoinOf, Listed, Staged, Roots;
    var ops, es, listed := Discover(inputs, m, run).ops, ScanOf(inputs).found, ListedAfter(inputs, m, run);
    ListingIsTheRun(Staged(m, run, RowOps(es)), run);
    forall x, y | x in ops && y in ops ensures Independent(x, y) {
      OpsOfDiscover(inputs, m, run, x);
      OpsOfDiscover(inputs, m, run, y);
      OpsAreIndependent(inputs, es, listed, x, y);
    }
  }

  ghost predicate OfRun(inputs: Inputs, es: seq<Establishment>, listed: seq<Staging>, x: Op) {
    x in RowOps(es) || x in JoinOf(Companies, inputs.companyFiles, listed).work.ops || x in JoinOf(Simples, inputs.simplesFiles, listed).work.ops
  }

  lemma OpsAreIndependent(inputs: Inputs, es: seq<Establishment>, listed: seq<Staging>, x: Op, y: Op)
    requires DistinctRows(es) && DistinctCnpjs(listed) && OfRun(inputs, es, listed, x) && OfRun(inputs, es, listed, y)
    ensures Independent(x, y)
  {
    hide JoinOf, DistinctCnpjs;
    forall z ensures z in JoinOf(Companies, inputs.companyFiles, listed).work.ops ==> z.CompanyOp? {
      if z in JoinOf(Companies, inputs.companyFiles, listed).work.ops {
        JoinIsIndependent(Companies, inputs.companyFiles, listed, z, z);
      }
    }
    forall z ensures z in JoinOf(Simples, inputs.simplesFiles, listed).work.ops ==> z.SimplesOp? {
      if z in JoinOf(Simples, inputs.simplesFiles, listed).work.ops {
        JoinIsIndependent(Simples, inputs.simplesFiles, listed, z, z);
      }
    }
    if x.CompanyOp? && y.CompanyOp? {
      JoinIsIndependent(Companies, inputs.companyFiles, listed, x, y);
    } else if x.SimplesOp? && y.SimplesOp? {
      JoinIsIndependent(Simples, inputs.simplesFiles, listed, x, y);
    } else if x.RowOp? && y.RowOp? {
      var i :| 0 <= i < |es| && RowOps(es)[i] == x;
      var j :| 0 <= j < |es| && RowOps(es)[j] == y;
    }
  }

  // ----------------------------------------------------- two rows that share a CNPJ

  // The last row of c in a list of transactions is the one its candidate shows.
  lemma {:induction false} LastRowStages(db: Db, run: RunId, ops: seq<Op>, j: nat)
    requires j < |ops| && ops[j].RowOp?
    requires forall i :: j < i < |ops| && ops[i].RowOp? ==> ops[i].e.Cnpj() != ops[j].e.Cnpj()
    ensures var k := (run, ops[j].e.Cnpj()); var m := ApplyAll(db, run, ops).candidates; k in m && m[k].payload == ops[j].e
    decreases |ops|
  {
    hide AfterCompanies, AfterRegistry, AfterCnaes, AfterRecords, AfterResults, AfterCompanyPayloads, AfterSimplesPayloads, ApplyAll;
    ApplyAllLast(db, run, ops);
    if j < |ops| - 1 {
      LastRowStages(db, run, ops[..|ops| - 1], j);
    }
  }

  // The last index at which c appears.
  lemma {:induction false} LastOf(es: seq<Establishment>, c: Cnpj, k: nat) returns (j: nat)
    requires k < |es| && es[k].Cnpj() == c
    ensures k <= j < |es| && es[j].Cnpj() == c && forall i :: j < i < |es| ==> es[i].Cnpj() != c
    decreases |es| - k
  {
    if i :| k < i < |es| && es[i].Cnpj() == c {
      j := LastOf(es, c, i);
    } else {
      j := k;
    }
  }

  // A worker that is stopped at row i while the retry runs, and commits that row after it.
  lemma LateRow(u: seq<Op>, ops: seq<Op>, z: Op)
    ensures Shuffle(u + ops + [z], u + [z], ops)
  {
    var w := u + ops + [z];
    assert w[..|w| - 1] == u + ops && (u + [z])[..|u + [z]| - 1] == u;
    ConcatIsShuffle(u, ops);
  }

  lemma RowsAt(es: seq<Establishment>, ops: seq<Op>, k: nat)
    requires RowOps(es) <= ops && NoRows(ops[|es|..]) && k < |ops|
    ensures if k < |es| then ops[k] == RowOp(es[k]) else !ops[k].RowOp?
  {
    if k < |es| {
      assert ops[k] == RowOps(es)[k];
    } else {
      assert ops[k] == ops[|es|..][k - |es|];
    }
  }

  lemma LateRowDiverges(db: Db, run: RunId, es: seq<Establishment>, ops: seq<Op>, i: nat, j: nat)
    requires RowOps(es) <= ops && NoRows(ops[|es|..])
    requires i < j < |es| && es[i].Cnpj() == es[j].Cnpj() && es[i] != es[j] && forall k :: j < k < |es| ==> es[k].Cnpj() != es[j].Cnpj()
    ensures ApplyAll(db, run, ops[..i] + ops + [ops[i]]) != ApplyAll(db, run, ops)
  {
    hide ApplyAll, NoRows, RowOps;
    forall k | 0 <= k < |ops| ensures if k < |es| then ops[k] == RowOp(es[k]) else !ops[k].RowOp? {
      RowsAt(es, ops, k);
    }
    LastRowStages(db, run, ops, j);
    var w := ops[..i] + ops + [ops[i]];
    assert w[|w| - 1] == RowOp(es[i]);
    LastRowStages(db, run, w, |w| - 1);
  }

  // Every way a stale worker's first k transactions can interleave with the retry gives the tables of one run.
  ghost predicate OverlapsConverge(db: Db, run: RunId, ops: seq<Op>) {
    forall k: nat, w :: k <= |ops| && Shuffle(w, ops[..k], ops) ==> ApplyAll(db, run, w) == ApplyAll(db, run, ops)
  }

  lemma SharedCnpjDiverges(db: Db, run: RunId, es: seq<Establishment>, ops: seq<Op>, i: nat, j: nat)
    requires RowOps(es) <= ops && NoRows(ops[|es|..])
    requires i < j < |es| && es[i].Cnpj() == es[j].Cnpj() && es[i] != es[j] && forall k :: j < k < |es| ==> es[k].Cnpj() != es[j].Cnpj()
    ensures !OverlapsConverge(db, run, ops)
  {
    hide ApplyAll, Shuffle, NoRows, RowOps;
    LateRowDiverges(db, run, es, ops, i, j);
    assert ops[..i + 1] == ops[..i] + [ops[i]];
    LateRow(ops[..i], ops, ops[i]);
  }

  lemma OverlapsExactly(db: Db, run: RunId, es: seq<Establishment>, ops: seq<Op>)
    requires RowOps(es) <= ops && NoRows(ops[|es|..]) && (DistinctRows(es) ==> AllIndependent(ops, ops))
    ensures OverlapsConverge(db, run, ops) <==> DistinctRows(es)
  {
    hide ApplyAll, Shuffle, AllIndependent, NoRows, RowOps;
    if DistinctRows(es) {
      forall k: nat, w | k <= |ops| && Shuffle(w, ops[..k], ops) ensures ApplyAll(db, run, w) == ApplyAll(db, run, ops) {
        StalePrefixConverges(db, run, w, ops, k);
      }
    } else {
      var a, b :| 0 <= a < b < |es| && es[a].Cnpj() == es[b].Cnpj() && es[a] != es[b];
      var j := LastOf(es, es[b].Cnpj(), b);
      SharedCnpjDiverges(db, run, es, ops, if es[a] != es[j] then a else b, j);
    }
  }

  /**
   A stale worker that still commits a part of the run's transactions while the retry commits all of
   them leaves the tables of one run, whatever the interleaving, exactly when no two different rows the
   scan matches share a CNPJ.
   */
  lemma OverlapsConvergeExactly(db: Db, run: RunId, inputs: Inputs)
    ensures OverlapsConverge(db, run, Discover(inputs, db.candidates, run).ops) <==> DistinctRows(ScanOf(inputs).found)
  {
    hide Discover, ScanOf, OverlapsConverge, AllIndependent, DistinctRows, NoRows;
    RowsComeFirst(inputs, db.candidates, run);
    if DistinctRows(ScanOf(inputs).found) {
      DiscoverIsIndependent(inputs, db.candidates, run);
    }
    OverlapsExactly(db, run, ScanOf(inputs).found, Discover(inputs, db.candidates, run).ops);
  }

  // ------------------------------------------- both workers commit the same transactions

  predicate StagesRow(w: seq<Op>, c: Cnpj) {
    exists i :: 0 <= i < |w| && w[i].RowOp? && w[i].e.Cnpj() == c
  }

  function CandidateAt(m: Candidates, k: (RunId, Cnpj)): Option<Candidate> {
    if k in m then Some(m[k]) else None
  }

  // The candidate of the only row that carries c.
  function CandidateOf(es: seq<Establishment>, c: Cnpj): Option<Candidate> {
    if es == [] then None
    else if es[0].Cnpj() == c then Some(Candidate(es[0].cnpjBasico, es[0], Some(c)))
    else CandidateOf(es[1..], c)
  }

  lemma {:induction false} CandidateOfRow(es: seq<Establishment>, e: Establishment)
    requires DistinctRows(es) && e in es
    ensures CandidateOf(es, e.Cnpj()) == Some(Candidate(e.cnpjBasico, e, Some(e.Cnpj())))
  {
    if es[0].Cnpj() == e.Cnpj() {
      var i :| 0 <= i < |es| && es[i] == e;
      assert i > 0 ==> es[0] == es[i];
    } else {
      CandidateOfRow(es[1..], e);
    }
  }

  // Rows of es and nothing but rows of es.
  ghost predicate RowsFrom(w: seq<Op>, es: seq<Establishment>) {
    forall i :: 0 <= i < |w| && w[i].RowOp? ==> w[i].e in es
  }

  lemma {:induction false} StagedAt(m: Candidates, run: RunId, w: seq<Op>, es: seq<Establishment>, k: (RunId, Cnpj))
    requires DistinctRows(es) && RowsFrom(w, es)
    ensures CandidateAt(Staged(m, run, w), k) == if k.0 == run && StagesRow(w, k.1) then CandidateOf(es, k.1) else CandidateAt(m, k)
    decreases |w|
  {
    hide DistinctRows, CandidateOf;
    if w != [] {
      StagedAt(AfterCandidates(m, run, w[0]), run, w[1..], es, k);
      StagesRowCons(w, k.1);
      if w[0].RowOp? {
        CandidateOfRow(es, w[0].e);
      }
    }
  }

  lemma StagesRowCons(w: seq<Op>, c: Cnpj)
    requires w != []
    ensures StagesRow(w, c) <==> (w[0].RowOp? && w[0].e.Cnpj() == c) || StagesRow(w[1..], c)
  {
    if i :| 0 <= i < |w[1..]| && w[1..][i].RowOp? && w[1..][i].e.Cnpj() == c {
      assert w[i + 1] == w[1..][i];
    }
  }

  lemma SameCandidates(a: Candidates, b: Candidates)
    requires forall k :: CandidateAt(a, k) == CandidateAt(b, k)
    ensures a == b
  {
    forall k ensures (k in a <==> k in b) && (k in a ==> a[k] == b[k]) {
      assert CandidateAt(a, k) == CandidateAt(b, k);
    }
  }

  /**
   Whatever the other worker has staged of the same rows, a worker that has staged all of them lists the
   same candidates, so its joins and its verdict are those of a run of its own.
   */
  lemma OverlapListsTheSame(inputs: Inputs, m: Candidates, run: RunId, w: seq<Op>)
    requires DistinctRows(ScanOf(inputs).found) && RowsFrom(w, ScanOf(inputs).found)
    requires forall e :: e in ScanOf(inputs).found ==> StagesRow(w, e.Cnpj())
    ensures Listed(Staged(m, run, w), run) == ListedAfter(inputs, m, run)
  {
    hide Staged, Listed, ScanOf, DistinctRows, CandidateOf;
    var es := ScanOf(inputs).found;
    var rows := RowOps(es);
    forall k ensures CandidateAt(Staged(m, run, w), k) == CandidateAt(Staged(m, run, rows), k) {
      StagedAt(m, run, w, es, k);
      StagedAt(m, run, rows, es, k);
      assert StagesRow(rows, k.1) <==> StagesRow(w, k.1) by {
        if i :| 0 <= i < |w| && w[i].RowOp? && w[i].e.Cnpj() == k.1 {
          var j :| 0 <= j < |es| && es[j] == w[i].e;
          assert rows[j].e == w[i].e;
        }
        if i :| 0 <= i < |rows| && rows[i].RowOp? && rows[i].e.Cnpj() == k.1 {
          assert es[i] in es;
        }
      }
    }
    SameCandidates(Staged(m, run, w), Staged(m, run, rows));
  }
}
