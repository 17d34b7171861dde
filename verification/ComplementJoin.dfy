/**
 Joining the staged candidates of a run with the complement files: several files, one
 shrinking set of CNPJ roots to find, and every candidate of a root gets its record.
 */
module ComplementJoin {
  import opened Basics
  import opened Ordering
  import opened Establishments
  import opened Complements
  import opened Ingestion

  datatype Kind = Companies | Simples

  // A staged candidate, as listed for the join.
  datatype Staging = Staging(cnpj: Cnpj, basico: string)

  type Candidates = map<(RunId, Cnpj), Candidate>

  function RunKeys(m: Candidates, run: RunId): set<Cnpj> {
    set k | k in m && k.0 == run :: k.1
  }

  function ListingOf(m: Candidates, run: RunId, cs: seq<Cnpj>): (r: seq<Staging>)
    requires forall i :: 0 <= i < |cs| ==> (run, cs[i]) in m
    ensures |r| == |cs| && forall i :: 0 <= i < |r| ==> r[i] == Staging(cs[i], m[(run, cs[i])].basico)
  {
    if cs == [] then [] else [Staging(cs[0], m[(run, cs[0])].basico)] + ListingOf(m, run, cs[1..])
  }

  // The candidates of a run, ordered by CNPJ.
  function Listed(m: Candidates, run: RunId): seq<Staging> {
    var cs := SortedSet(RunKeys(m, run));
    assert forall i :: 0 <= i < |cs| ==> cs[i] in cs;
    ListingOf(m, run, cs)
  }

  function Group(listed: seq<Staging>, basico: string): (cs: seq<Cnpj>)
    ensures forall c :: c in cs <==> Staging(c, basico) in listed
  {
    if listed == [] then []
    else (if listed[0].basico == basico then [listed[0].cnpj] else []) + Group(listed[1..], basico)
  }

  function Roots(listed: seq<Staging>): set<string> {
    set i | 0 <= i < |listed| :: listed[i].basico
  }

  // ------------------------------------------------------------ what a join commits

  function OpOf(kind: Kind, c: Cnpj, r: Record): Option<Op> {
    if |r| != COMPLEMENT_COLUMN_COUNT then None
    else
      match kind
      case Simples => if NoNulIn(r) then Some(SimplesOp(c, r)) else None
      case Companies => if CompanyRecordFits(r) then Some(CompanyOp(c, r, CompanyFields(r).value)) else None
  }

  // Whether the columns can hold a record of the kind.
  predicate RecordFits(kind: Kind, r: Record) {
    |r| == COMPLEMENT_COLUMN_COUNT && if kind == Companies then CompanyRecordFits(r) else NoNulIn(r)
  }

  // Committed transactions, and whether the next one failed.
  datatype Work = Work(ops: seq<Op>, failed: bool)

  function Both(a: Work, b: Work): Work {
    if a.failed then a else Work(a.ops + b.ops, b.failed)
  }

  // One record, for each candidate of its root.
  function Attach(kind: Kind, cs: seq<Cnpj>, r: Record): Work {
    if cs == [] then Work([], false)
    else
      match OpOf(kind, cs[0], r)
      case None => Work([], true)
      case Some(op) => Both(Work([op], false), Attach(kind, cs[1..], r))
  }

  function AttachAll(kind: Kind, records: seq<Record>, listed: seq<Staging>): Work
    requires FullRecords(records)
  {
    if records == [] then Work([], false)
    else Both(Attach(kind, Group(listed, records[0][0]), records[0]), AttachAll(kind, records[1..], listed))
  }

  lemma BothAssociates(a: Work, b: Work, c: Work)
    ensures Both(a, Both(b, c)) == Both(Both(a, b), c)
  {
    assert a.ops + (b.ops + c.ops) == a.ops + b.ops + c.ops;
  }

  lemma BothNothing(a: Work)
    ensures Both(a, Work([], false)) == a && Both(Work([], false), a) == a
  {
    assert a.ops + [] == a.ops && [] + a.ops == a.ops;
  }

  lemma {:induction false} AttachAllAppend(kind: Kind, rs: seq<Record>, more: seq<Record>, listed: seq<Staging>)
    requires FullRecords(rs) && FullRecords(more)
    ensures FullRecords(rs + more)
    ensures AttachAll(kind, rs + more, listed) == Both(AttachAll(kind, rs, listed), AttachAll(kind, more, listed))
  {
    hide Attach, Group, Both;
    if rs == [] {
      assert rs + more == more;
      BothNothing(AttachAll(kind, more, listed));
    } else {
      assert (rs + more)[1..] == rs[1..] + more;
      AttachAllAppend(kind, rs[1..], more, listed);
      BothAssociates(Attach(kind, Group(listed, rs[0][0]), rs[0]), AttachAll(kind, rs[1..], listed), AttachAll(kind, more, listed));
    }
  }

  lemma AttachAllOne(kind: Kind, r: Record, listed: seq<Staging>)
    requires FullRecords([r])
    ensures r == [r][0] && r != []
    ensures AttachAll(kind, [r], listed) == Attach(kind, Group(listed, r[0]), r)
  {
    hide Attach, Group, Both;
    assert |[r][0]| == COMPLEMENT_COLUMN_COUNT;
    assert [r][1..] == [];
    BothNothing(Attach(kind, Group(listed, r[0]), r));
  }

  /** What joining commits and reports; an ill-formed root is refused by the first reader. */
  datatype Join = Join(work: Work, scan: Scan)
  {
    predicate Failed() {
      work.failed || scan.failed
    }
  }

  predicate RootsAreValid(listed: seq<Staging>) {
    forall i :: 0 <= i < |listed| ==> ValidTarget(listed[i].basico)
  }

  function JoinOf(kind: Kind, files: seq<seq<Row>>, listed: seq<Staging>): Join {
    if files != [] && !RootsAreValid(listed) then Join(Work([], true), Scan([], 0, Roots(listed), false))
    else
      var scan := ScanRows(Flat(files), Roots(listed));
      ScanShape(Flat(files), Roots(listed));
      Join(AttachAll(kind, scan.records, listed), scan)
  }

  // ------------------------------------------------------------------------ methods

  ghost predicate Ready(m: Candidates, run: RunId, c: Cnpj, basico: string) {
    (run, c) in m && m[(run, c)].basico == basico && m[(run, c)].company == Some(c)
  }

  ghost predicate AllReady(m: Candidates, run: RunId, listed: seq<Staging>) {
    forall x :: x in listed ==> Ready(m, run, x.cnpj, x.basico)
  }

  // `candidates_by_basic`
  method GroupByRoot(listed: seq<Staging>) returns (byRoot: map<string, seq<Cnpj>>)
    ensures byRoot.Keys == Roots(listed)
    ensures forall b :: b in byRoot ==> byRoot[b] == Group(listed, b)
  {
    hide Group, Roots;
    byRoot := map[];
    NothingListed();
    for i := 0 to |listed|
      invariant byRoot.Keys == Roots(listed[..i])
      invariant forall b :: b in byRoot ==> byRoot[b] == Group(listed[..i], b)
      invariant forall b :: b !in byRoot ==> Group(listed[..i], b) == []
    {
      var x := listed[i];
      assert listed[..i + 1] == listed[..i] + [x];
      forall b ensures Group(listed[..i + 1], b) == Group(listed[..i], b) + if x.basico == b then [x.cnpj] else [] {
        GroupNext(listed[..i], x, b);
      }
      RootsNext(listed[..i], x);
      byRoot := byRoot[x.basico := (if x.basico in byRoot then byRoot[x.basico] else []) + [x.cnpj]];
    }
    assert listed[..|listed|] == listed;
  }

  lemma NothingListed()
    ensures Roots([]) == {} && forall b :: Group([], b) == []
  {
  }

  lemma {:induction false} GroupNext(listed: seq<Staging>, x: Staging, b: string)
    ensures Group(listed + [x], b) == Group(listed, b) + if x.basico == b then [x.cnpj] else []
  {
    if listed == [] {
      assert [x][1..] == [] && listed + [x] == [x];
    } else {
      assert (listed + [x])[1..] == listed[1..] + [x];
      GroupNext(listed[1..], x, b);
    }
  }

  lemma RootsNext(listed: seq<Staging>, x: Staging)
    ensures Roots(listed + [x]) == Roots(listed) + {x.basico}
  {
    var xs := listed + [x];
    forall b ensures b in Roots(xs) <==> b in Roots(listed) || b == x.basico {
      if b in Roots(listed) {
        var i :| 0 <= i < |listed| && listed[i].basico == b;
        assert xs[i].basico == b;
      }
      assert xs[|listed|] == x;
    }
  }

  method AttachOne(store: CnpjStore, run: RunId, kind: Kind, c: Cnpj, r: Record) returns (ok: bool)
    requires |r| == COMPLEMENT_COLUMN_COUNT && Ready(store.candidates, run, c, r[0])
    modifies store
    ensures ok <==> OpOf(kind, c, r).Some?
    ensures store.Contents() == if ok then Apply(old(store.Contents()), run, OpOf(kind, c, r).value) else old(store.Contents())
    ensures store.candidates == old(store.candidates)
  {
    hide ShareCapital, CapitalFits, NoNulIn;
    match kind
    case Companies => ok := store.IngestCompany(run, c, r);
    case Simples => ok := store.IngestSimples(run, c, r);
  }

  lemma ApplyNext(db: Db, run: RunId, ops: seq<Op>, op: Op)
    ensures ApplyAll(db, run, ops + [op]) == Apply(ApplyAll(db, run, ops), run, op)
  {
    ApplyAllLast(db, run, ops + [op]);
    assert (ops + [op])[..|ops|] == ops;
  }

  lemma AttachStep(kind: Kind, c: Cnpj, cs: seq<Cnpj>, r: Record, done: Work)
    requires !done.failed
    ensures Both(done, Attach(kind, [c] + cs, r)) ==
      match OpOf(kind, c, r)
      case None => Work(done.ops, true)
      case Some(op) => Both(Work(done.ops + [op], false), Attach(kind, cs, r))
  {
    hide OpOf;
    assert ([c] + cs)[1..] == cs;
    var t := Attach(kind, cs, r);
    match OpOf(kind, c, r)
    case None => assert done.ops + [] == done.ops;
    case Some(op) => BothAssociates(done, Work([op], false), t);
  }

  method AttachRecord(store: CnpjStore, run: RunId, kind: Kind, cs: seq<Cnpj>, r: Record) returns (failed: bool)
    requires |r| == COMPLEMENT_COLUMN_COUNT && forall c :: c in cs ==> Ready(store.candidates, run, c, r[0])
    modifies store
    ensures failed == Attach(kind, cs, r).failed
    ensures store.Contents() == ApplyAll(old(store.Contents()), run, Attach(kind, cs, r).ops)
    ensures store.candidates == old(store.candidates)
  {
    hide Apply, ApplyAll, OpOf, Attach;
    ghost var start := store.Contents();
    ghost var done := Work([], false);
    assert start == ApplyAll(start, run, []) by { ApplyNothing(start, run); }
    assert cs[0..] == cs;
    BothNothing(Attach(kind, cs, r));
    var i := 0;
    while i < |cs|
      invariant i <= |cs| && !done.failed
      invariant Attach(kind, cs, r) == Both(done, Attach(kind, cs[i..], r))
      invariant store.Contents() == ApplyAll(start, run, done.ops)
      invariant store.candidates == old(store.candidates)
    {
      assert cs[i..] == [cs[i]] + cs[i + 1..];
      AttachStep(kind, cs[i], cs[i + 1..], r, done);
      var ok := AttachOne(store, run, kind, cs[i], r);
      if !ok {
        return true;
      }
      ApplyNext(start, run, done.ops, OpOf(kind, cs[i], r).value);
      done := Work(done.ops + [OpOf(kind, cs[i], r).value], false);
      i := i + 1;
    }
    assert cs[i..] == [];
    AttachNobody(kind, r);
    BothNothing(done);
    return false;
  }

  lemma ApplyNothing(db: Db, run: RunId)
    ensures ApplyAll(db, run, []) == db
  {
  }

  lemma AttachNobody(kind: Kind, r: Record)
    ensures Attach(kind, [], r) == Work([], false)
  {
  }

  // The candidates of a root in the map are the group of that root.
  ghost predicate Groups(byRoot: map<string, seq<Cnpj>>, listed: seq<Staging>, targets: set<string>) {
    forall b :: b in targets ==> b in byRoot && byRoot[b] == Group(listed, b)
  }

  // What has been attached once the scan has got this far.
  ghost predicate Attached(db: Db, start: Db, run: RunId, kind: Kind, records: seq<Record>, listed: seq<Staging>) {
    FullRecords(records) && db == ApplyAll(start, run, AttachAll(kind, records, listed).ops)
  }

  lemma AttachedNext(mid: Db, db: Db, start: Db, run: RunId, kind: Kind, records: seq<Record>, r: Record, listed: seq<Staging>)
    requires |r| == COMPLEMENT_COLUMN_COUNT
    requires Attached(mid, start, run, kind, records, listed) && !AttachAll(kind, records, listed).failed
    requires db == ApplyAll(mid, run, Attach(kind, Group(listed, r[0]), r).ops)
    ensures Attached(db, start, run, kind, records + [r], listed)
    ensures AttachAll(kind, records + [r], listed).failed == Attach(kind, Group(listed, r[0]), r).failed
  {
    hide Attach, AttachAll, Group, Apply, ApplyAll;
    AttachAllAppend(kind, records, [r], listed);
    AttachAllOne(kind, r, listed);
    ApplyAllAppend(start, run, AttachAll(kind, records, listed).ops, Attach(kind, Group(listed, r[0]), r).ops);
  }

  // A failure absorbs whatever the reader would have yielded next.
  lemma FailureAbsorbs(kind: Kind, records: seq<Record>, more: seq<Record>, listed: seq<Staging>)
    requires FullRecords(records) && FullRecords(more) && AttachAll(kind, records, listed).failed
    ensures FullRecords(records + more) && AttachAll(kind, records + more, listed) == AttachAll(kind, records, listed)
  {
    hide Attach, AttachAll, Group;
    AttachAllAppend(kind, records, more, listed);
  }

  lemma GroupIsReady(m: Candidates, run: RunId, listed: seq<Staging>, b: string)
    requires AllReady(m, run, listed)
    ensures forall c :: c in Group(listed, b) ==> Ready(m, run, c, b)
  {
    hide Ready;
    forall c | c in Group(listed, b) ensures Ready(m, run, c, b) {
      assert Staging(c, b) in listed;
    }
  }

  lemma FailureEndsJoin(kind: Kind, whole: Scan, done: Scan, rest: seq<Row>, listed: seq<Staging>)
    requires !done.failed && whole == Then(done, ScanRows(rest, done.remaining))
    requires FullRecords(done.records) && AttachAll(kind, done.records, listed).failed
    ensures FullRecords(whole.records) && AttachAll(kind, whole.records, listed) == AttachAll(kind, done.records, listed)
  {
    hide AttachAll, ScanRows;
    ScanShape(rest, done.remaining);
    FailureAbsorbs(kind, done.records, ScanRows(rest, done.remaining).records, listed);
  }

  lemma AttachedAtFirst(db: Db, run: RunId, kind: Kind, listed: seq<Staging>)
    ensures Attached(db, db, run, kind, [], listed) && !AttachAll(kind, [], listed).failed
  {
  }

  /** One complement reader, with the body of the loop that drives it. */
  method JoinFile(store: CnpjStore, run: RunId, kind: Kind, rows: seq<Row>, byRoot: map<string, seq<Cnpj>>, targets: set<string>,
                  ghost listed: seq<Staging>)
      returns (failed: bool, remaining: set<string>, rowsRead: nat, rowsMatched: nat)
    requires Groups(byRoot, listed, targets) && AllReady(store.candidates, run, listed) && targets != {}
    modifies store
    ensures var scan := ScanRows(NonBlank(rows), targets);
      && Attached(store.Contents(), old(store.Contents()), run, kind, scan.records, listed)
      && failed == (scan.failed || AttachAll(kind, scan.records, listed).failed)
      && (!failed ==> remaining == scan.remaining && rowsRead == scan.rowsRead && rowsMatched == |scan.records|)
    ensures store.candidates == old(store.candidates)
  {
    hide Apply, ApplyAll, Attach, AttachAll, AllReady, Group, ParseRecord, ScanRows, Then;
    ghost var start := store.Contents();
    ghost var done := Scan([], 0, targets, false);
    ghost var whole := ScanRows(NonBlank(rows), targets);
    AttachedAtFirst(start, run, kind, listed);
    NothingDone(whole, targets);
    assert rows[0..] == rows;
    remaining, rowsRead, rowsMatched := targets, 0, 0;
    var j := 0;
    while j < |rows| && remaining != {}
      invariant j <= |rows| && !done.failed && remaining == done.remaining <= targets
      invariant rowsRead == done.rowsRead && rowsMatched == |done.records|
      invariant whole == Then(done, ScanRows(NonBlank(rows[j..]), done.remaining))
      invariant Attached(store.Contents(), start, run, kind, done.records, listed)
      invariant !AttachAll(kind, done.records, listed).failed
      invariant store.candidates == old(store.candidates)
    {
      var row := rows[j];
      NonBlankNext(rows, j);
      if row != [] {
        ghost var rest := NonBlank(rows[j + 1..]);
        rowsRead := rowsRead + 1;
        if !GoodRow(row) {
          BadRowStops(row, rest, done);
          return true, remaining, rowsRead, rowsMatched;
        }
        ScanStep(row, rest, done);
        var b := Basico(row);
        if b in remaining {
          var r := ParseRecord(row);
          rowsMatched := rowsMatched + 1;
          remaining := remaining - {b};
          GroupIsReady(store.candidates, run, listed, b);
          ghost var mid := store.Contents();
          var attachFailed := AttachRecord(store, run, kind, byRoot[b], r);
          AttachedNext(mid, store.Contents(), start, run, kind, done.records, r, listed);
          if attachFailed {
            FailureEndsJoin(kind, whole, Advance(done, row), rest, listed);
            return true, remaining, rowsRead, rowsMatched;
          }
        }
        done := Advance(done, row);
      }
      j := j + 1;
    }
    NothingLeft(NonBlank(rows[j..]), done);
    return false, remaining, rowsRead, rowsMatched;
  }

  lemma AttachedThen(mid: Db, db: Db, start: Db, run: RunId, kind: Kind, done: Scan, one: Scan, listed: seq<Staging>)
    requires Attached(mid, start, run, kind, done.records, listed) && !done.failed
    requires !AttachAll(kind, done.records, listed).failed
    requires Attached(db, mid, run, kind, one.records, listed)
    ensures Attached(db, start, run, kind, Then(done, one).records, listed)
    ensures AttachAll(kind, Then(done, one).records, listed).failed == AttachAll(kind, one.records, listed).failed
  {
    hide Attach, AttachAll, Group, Apply, ApplyAll;
    AttachAllAppend(kind, done.records, one.records, listed);
    ApplyAllAppend(start, run, AttachAll(kind, done.records, listed).ops, AttachAll(kind, one.records, listed).ops);
  }

  // Scanning the next file of those that are left.
  lemma NextFile(rows: seq<Row>, rest: seq<Row>, done: Scan)
    requires !done.failed
    ensures var one := ScanRows(rows, done.remaining);
      Then(done, ScanRows(rows + rest, done.remaining)) == Then(Then(done, one), ScanRows(rest, Then(done, one).remaining))
  {
    hide ScanRows;
    ScanConcat(rows, rest, done.remaining);
    var one := ScanRows(rows, done.remaining);
    ThenAssociates(done, one, ScanRows(rest, one.remaining));
  }

  lemma RootIsValid(listed: seq<Staging>, targets: set<string>)
    requires targets <= Roots(listed)
    ensures RootsAreValid(listed) ==> forall b :: b in targets ==> ValidTarget(b)
  {
  }

  lemma InvalidRoot(listed: seq<Staging>)
    requires forall b :: b in Roots(listed) ==> ValidTarget(b)
    ensures RootsAreValid(listed)
  {
    forall i | 0 <= i < |listed| ensures ValidTarget(listed[i].basico) {
      assert listed[i].basico in Roots(listed);
    }
  }

  // What is known of the join before the next file is opened.
  ghost predicate Joining(db: Db, start: Db, run: RunId, kind: Kind, whole: Scan, done: Scan, rest: seq<Row>, listed: seq<Staging>) {
    && !done.failed && whole == Then(done, ScanRows(rest, done.remaining))
    && Attached(db, start, run, kind, done.records, listed)
    && !AttachAll(kind, done.records, listed).failed
  }

  // What is known when it has ended.
  ghost predicate Joined(db: Db, start: Db, run: RunId, kind: Kind, whole: Scan, failed: bool, listed: seq<Staging>) {
    Attached(db, start, run, kind, whole.records, listed)
    && failed == (whole.failed || AttachAll(kind, whole.records, listed).failed)
  }

  lemma JoinAtFirst(start: Db, run: RunId, kind: Kind, targets: set<string>, rows: seq<Row>, listed: seq<Staging>)
    ensures Joining(start, start, run, kind, ScanRows(rows, targets), Scan([], 0, targets, false), rows, listed)
  {
    AttachedAtFirst(start, run, kind, listed);
    NothingDone(ScanRows(rows, targets), targets);
  }

  lemma JoinNext(mid: Db, db: Db, start: Db, run: RunId, kind: Kind, whole: Scan, done: Scan, rows: seq<Row>, rest: seq<Row>,
                 failed: bool, listed: seq<Staging>)
    requires Joining(mid, start, run, kind, whole, done, rows + rest, listed)
    requires Joined(db, mid, run, kind, ScanRows(rows, done.remaining), failed, listed)
    ensures failed ==> Joined(db, start, run, kind, whole, true, listed)
    ensures !failed ==> Joining(db, start, run, kind, whole, Then(done, ScanRows(rows, done.remaining)), rest, listed)
    ensures !done.failed && (!failed ==> !ScanRows(rows, done.remaining).failed)
  {
    hide ScanRows, AttachAll, Attached;
    var one := ScanRows(rows, done.remaining);
    FullAfter(mid, start, run, kind, done.records, listed);
    FullAfter(db, mid, run, kind, one.records, listed);
    NextFile(rows, rest, done);
    AttachedThen(mid, db, start, run, kind, done, one, listed);
    var next := Then(done, one);
    if one.failed {
      assert whole == next;
    } else if failed {
      FullAfter(db, start, run, kind, next.records, listed);
      FailureEndsJoin(kind, whole, next, rest, listed);
      AttachedSame(db, start, run, kind, next.records, whole.records, listed);
    }
  }

  lemma FullAfter(db: Db, start: Db, run: RunId, kind: Kind, records: seq<Record>, listed: seq<Staging>)
    requires Attached(db, start, run, kind, records, listed)
    ensures FullRecords(records)
  {
  }

  lemma AttachedSame(db: Db, start: Db, run: RunId, kind: Kind, records: seq<Record>, more: seq<Record>, listed: seq<Staging>)
    requires Attached(db, start, run, kind, records, listed) && FullRecords(more)
    requires AttachAll(kind, records, listed) == AttachAll(kind, more, listed)
    ensures Attached(db, start, run, kind, more, listed)
  {
  }

  lemma JoinAtEnd(db: Db, start: Db, run: RunId, kind: Kind, whole: Scan, done: Scan, rest: seq<Row>, listed: seq<Staging>)
    requires Joining(db, start, run, kind, whole, done, rest, listed) && (rest == [] || done.remaining == {})
    ensures Joined(db, start, run, kind, whole, false, listed) && whole == done
  {
    hide AttachAll, Attached, ScanRows;
    NothingLeft(rest, done);
  }

  lemma FileShrinks(rows: seq<Row>, targets: set<string>)
    ensures ScanRows(rows, targets).remaining <= targets
  {
    ScanShape(rows, targets);
  }

  // How many files are opened: each one while some root is left to find.
  function FilesOpened(files: seq<seq<Row>>, targets: set<string>): (n: nat)
    ensures n <= |files|
  {
    if files == [] || targets == {} then 0
    else 1 + FilesOpened(files[1..], ScanRows(NonBlank(files[0]), targets).remaining)
  }

  lemma FilesOpenedNext(files: seq<seq<Row>>, i: nat, targets: set<string>)
    requires i <= |files|
    ensures FilesOpened(files[i..], targets)
         == if i == |files| || targets == {} then 0
            else 1 + FilesOpened(files[i + 1..], ScanRows(NonBlank(files[i]), targets).remaining)
  {
    hide ScanRows, NonBlank;
    if i < |files| {
      assert files[i..][1..] == files[i + 1..];
    }
  }

  /** File k is opened exactly when the files before it leave some root without a record. */
  lemma {:induction false} FileIsOpenedExactly(files: seq<seq<Row>>, targets: set<string>, k: nat)
    requires !ScanRows(Flat(files), targets).failed
    ensures k < FilesOpened(files, targets) <==> k < |files| && ScanRows(Flat(files[..k]), targets).remaining != {}
    decreases |files|
  {
    hide ScanRows, NonBlank;
    if files != [] && targets != {} {
      var one := ScanRows(NonBlank(files[0]), targets);
      ScanConcat(NonBlank(files[0]), Flat(files[1..]), targets);
      if 0 < k <= |files| {
        FileIsOpenedExactly(files[1..], one.remaining, k - 1);
        assert files[..k][1..] == files[1..][..k - 1];
        ScanConcat(NonBlank(files[0]), Flat(files[1..][..k - 1]), targets);
      } else if k == 0 {
        ScanNoRows(targets);
      }
    } else if k < |files| {
      FileShrinks(Flat(files[..k]), targets);
    }
  }

  lemma ScanNoRows(targets: set<string>)
    ensures ScanRows(Flat([]), targets).remaining == targets
  {
  }

  /** The loop over the complement files of one kind. */
  method JoinFiles(store: CnpjStore, run: RunId, kind: Kind, files: seq<seq<Row>>, listed: seq<Staging>)
      returns (failed: bool, remaining: set<string>, rows: nat, matches: nat, sourcesProcessed: nat)
    requires AllReady(store.candidates, run, listed)
    modifies store
    ensures var join := JoinOf(kind, files, listed);
      && store.Contents() == ApplyAll(old(store.Contents()), run, join.work.ops)
      && failed == join.Failed()
      && (!failed ==> remaining == join.scan.remaining && rows == join.scan.rowsRead && matches == |join.scan.records|)
    ensures store.candidates == old(store.candidates)
    ensures !failed ==> sourcesProcessed == FilesOpened(files, Roots(listed))
  {
    hide Apply, ApplyAll, AttachAll, Attached, AllReady, ScanRows, Joining, Group, ValidTarget, Roots, FilesOpened;
    var byRoot := GroupByRoot(listed);
    ghost var start := store.Contents();
    ghost var whole := ScanRows(Flat(files), Roots(listed));
    ghost var done := Scan([], 0, Roots(listed), false);
    remaining, rows, matches, sourcesProcessed := byRoot.Keys, 0, 0, 0;
    JoinAtFirst(start, run, kind, Roots(listed), Flat(files), listed);
    assert files[0..] == files;
    var i := 0;
    while i < |files| && remaining != {}
      invariant i <= |files| && sourcesProcessed == i && (i > 0 ==> RootsAreValid(listed))
      invariant remaining == done.remaining <= Roots(listed) && rows == done.rowsRead && matches == |done.records|
      invariant i == 0 ==> remaining == Roots(listed) && store.Contents() == start
      invariant Joining(store.Contents(), start, run, kind, whole, done, Flat(files[i..]), listed)
      invariant FilesOpened(files, Roots(listed)) == i + FilesOpened(files[i..], remaining)
      invariant store.candidates == old(store.candidates)
    {
      RootIsValid(listed, remaining);
      if exists b :: b in remaining && !ValidTarget(b) {
        ApplyNothing(start, run);
        return true, remaining, rows, matches, i;
      }
      sourcesProcessed := sourcesProcessed + 1;
      InvalidRootAtFirst(i, remaining, listed);
      FlatFrom(files, i);
      FilesOpenedNext(files, i, remaining);
      ghost var mid := store.Contents();
      FileShrinks(NonBlank(files[i]), remaining);
      var left, read, found;
      failed, left, read, found := JoinFile(store, run, kind, files[i], byRoot, remaining, listed);
      JoinNext(mid, store.Contents(), start, run, kind, whole, done, NonBlank(files[i]), Flat(files[i + 1..]), failed, listed);
      if failed {
        JoinedIs(store.Contents(), start, run, kind, files, true, listed);
        return true, remaining, rows, matches, sourcesProcessed;
      }
      done := Then(done, ScanRows(NonBlank(files[i]), remaining));
      remaining, rows, matches := left, rows + read, matches + found;
      i := i + 1;
    }
    assert i == |files| ==> Flat(files[i..]) == [];
    FilesOpenedNext(files, i, remaining);
    JoinAtEnd(store.Contents(), start, run, kind, whole, done, Flat(files[i..]), listed);
    failed := false;
    NoRootsAreValid(files, listed);
    JoinedIs(store.Contents(), start, run, kind, files, false, listed);
  }

  lemma InvalidRootAtFirst(i: nat, remaining: set<string>, listed: seq<Staging>)
    requires if i == 0 then remaining == Roots(listed) else RootsAreValid(listed)
    requires forall b :: b in remaining ==> ValidTarget(b)
    ensures RootsAreValid(listed)
  {
    hide ValidTarget;
    if i == 0 {
      InvalidRoot(listed);
    }
  }

  lemma NoRootsAreValid(files: seq<seq<Row>>, listed: seq<Staging>)
    ensures Roots(listed) == {} ==> RootsAreValid(listed)
  {
    hide ValidTarget;
    if Roots(listed) == {} {
      InvalidRoot(listed);
    }
  }

  lemma JoinedIs(db: Db, start: Db, run: RunId, kind: Kind, files: seq<seq<Row>>, failed: bool, listed: seq<Staging>)
    requires files == [] || RootsAreValid(listed)
    requires Joined(db, start, run, kind, ScanRows(Flat(files), Roots(listed)), failed, listed)
    ensures var join := JoinOf(kind, files, listed);
      db == ApplyAll(start, run, join.work.ops) && failed == join.Failed() && join.scan == ScanRows(Flat(files), Roots(listed))
  {
    hide ScanRows, AttachAll, Apply, ApplyAll;
  }

  // ----------------------------------------------- every candidate gets its first record

  function OpRecord(kind: Kind, x: Op, c: Cnpj): Option<Record> {
    match x
    case RowOp(_) => None
    case CompanyOp(d, r, _) => if kind == Companies && c == d then Some(r) else None
    case SimplesOp(d, r) => if kind == Simples && c == d then Some(r) else None
  }

  function Or<T>(first: Option<T>, second: Option<T>): Option<T> {
    if first.Some? then first else second
  }

  // The last record the transactions attach to a candidate.
  function LastRecord(kind: Kind, ops: seq<Op>, c: Cnpj): Option<Record> {
    if ops == [] then None else Or(LastRecord(kind, ops[1..], c), OpRecord(kind, ops[0], c))
  }

  function Payload(db: Db, kind: Kind, run: RunId, c: Cnpj): Option<Record> {
    var m := if kind == Companies then db.companyPayloads else db.simplesPayloads;
    if (run, c) in m then Some(m[(run, c)]) else None
  }

  lemma {:induction false} PayloadIsLastRecord(db: Db, run: RunId, kind: Kind, ops: seq<Op>, c: Cnpj)
    ensures Payload(ApplyAll(db, run, ops), kind, run, c) == Or(LastRecord(kind, ops, c), Payload(db, kind, run, c))
    decreases |ops|
  {
    hide AfterCompanies, AfterRegistry, AfterCnaes, AfterRecords, AfterResults, AfterCandidates;
    if ops != [] {
      PayloadIsLastRecord(Apply(db, run, ops[0]), run, kind, ops[1..], c);
    }
  }

  lemma {:induction false} LastRecordAppend(kind: Kind, xs: seq<Op>, ys: seq<Op>, c: Cnpj)
    ensures LastRecord(kind, xs + ys, c) == Or(LastRecord(kind, ys, c), LastRecord(kind, xs, c))
  {
    if xs == [] {
      assert xs + ys == ys;
    } else {
      assert (xs + ys)[1..] == xs[1..] + ys;
      LastRecordAppend(kind, xs[1..], ys, c);
    }
  }

  lemma {:induction false} AttachReaches(kind: Kind, cs: seq<Cnpj>, r: Record, c: Cnpj)
    requires !Attach(kind, cs, r).failed
    ensures LastRecord(kind, Attach(kind, cs, r).ops, c) == if c in cs then Some(r) else None
  {
    hide CompanyFields;
    if cs != [] {
      AttachReaches(kind, cs[1..], r, c);
      var op := OpOf(kind, cs[0], r).value;
      assert ([op] + Attach(kind, cs[1..], r).ops)[1..] == Attach(kind, cs[1..], r).ops;
    }
  }

  ghost predicate DistinctCnpjs(listed: seq<Staging>) {
    forall x, y :: x in listed && y in listed && x.cnpj == y.cnpj ==> x == y
  }

  lemma {:induction false} AttachAllReaches(kind: Kind, records: seq<Record>, listed: seq<Staging>, x: Staging)
    requires FullRecords(records) && OncePerKey(records) && DistinctCnpjs(listed) && x in listed
    requires !AttachAll(kind, records, listed).failed
    ensures LastRecord(kind, AttachAll(kind, records, listed).ops, x.cnpj) == Found(records, x.basico)
  {
    hide Attach, Group;
    if records != [] {
      var r, rest := records[0], records[1..];
      var here, later := Attach(kind, Group(listed, r[0]), r), AttachAll(kind, rest, listed);
      AttachAllReaches(kind, rest, listed, x);
      AttachReaches(kind, Group(listed, r[0]), r, x.cnpj);
      LastRecordAppend(kind, here.ops, later.ops, x.cnpj);
      if r[0] == x.basico {
        NotFoundAgain(records, x.basico);
      }
    }
  }

  lemma {:induction false} NotFound(records: seq<Record>, basico: string)
    requires FullRecords(records) && forall i :: 0 <= i < |records| ==> records[i][0] != basico
    ensures Found(records, basico) == None
  {
    if records != [] {
      NotFound(records[1..], basico);
    }
  }

  lemma NotFoundAgain(records: seq<Record>, basico: string)
    requires records != [] && FullRecords(records) && OncePerKey(records) && records[0][0] == basico
    ensures Found(records[1..], basico) == None
  {
    NotFound(records[1..], basico);
  }

  /**
   Shrinking targets, several files and early exits included, each candidate ends up with the
   first record of its root in file order, and its root is reported missing exactly when there
   is none: what a join over every row of every file would give.
   */
  lemma JoinGivesFirstRecord(db: Db, run: RunId, kind: Kind, files: seq<seq<Row>>, listed: seq<Staging>, x: Staging)
    requires !JoinOf(kind, files, listed).Failed() && DistinctCnpjs(listed) && x in listed
    ensures Payload(ApplyAll(db, run, JoinOf(kind, files, listed).work.ops), kind, run, x.cnpj)
         == Or(FirstRecord(Flat(files), x.basico), Payload(db, kind, run, x.cnpj))
    ensures x.basico in JoinOf(kind, files, listed).scan.remaining <==> FirstRecord(Flat(files), x.basico) == None
  {
    hide AttachAll, ScanRows, Flat, FirstRecord, Found, Apply, ApplyAll, Payload;
    var join := JoinOf(kind, files, listed);
    assert x.basico in Roots(listed);
    ScanShape(Flat(files), Roots(listed));
    ScanFindsFirst(Flat(files), Roots(listed), x.basico);
    AttachAllReaches(kind, join.scan.records, listed, x);
    PayloadIsLastRecord(db, run, kind, join.work.ops, x.cnpj);
  }

  /** The listing names each candidate of the run once, with the root it was staged under. */
  lemma ListingIsTheRun(m: Candidates, run: RunId)
    ensures DistinctCnpjs(Listed(m, run))
    ensures forall x :: x in Listed(m, run) <==> (run, x.cnpj) in m && m[(run, x.cnpj)].basico == x.basico
  {
    var cs, r := SortedSet(RunKeys(m, run)), Listed(m, run);
    forall x ensures x in r <==> (run, x.cnpj) in m && m[(run, x.cnpj)].basico == x.basico {
      if (run, x.cnpj) in m && m[(run, x.cnpj)].basico == x.basico {
        assert x.cnpj in RunKeys(m, run) && x.cnpj in cs;
        var i :| 0 <= i < |cs| && cs[i] == x.cnpj;
        assert r[i] == x;
      }
      if x in r {
        var i :| 0 <= i < |r| && r[i] == x;
        assert cs[i] in cs;
      }
    }
  }
}
