/** When a join with the complement files fails and when it is complete, in terms of their rows. */
module JoinOutcomes {
  import opened Basics
  import opened Establishments
  import opened Complements
  import opened ComplementJoin
  import opened Ingestion
  import opened Text

  // The rows before the first one of another layout.
  function GoodPrefix(rows: seq<Row>): (good: seq<Row>)
    ensures good <= rows && (|good| < |rows| ==> !GoodRow(rows[|good|]))
  {
    if rows == [] || !GoodRow(rows[0]) then [] else [rows[0]] + GoodPrefix(rows[1..])
  }

  lemma {:induction false} FoundInGoodPrefix(rows: seq<Row>, targets: set<string>, b: string)
    requires b in targets && FullRecords(ScanRows(rows, targets).records)
    ensures Found(ScanRows(rows, targets).records, b) == FirstRecord(GoodPrefix(rows), b)
  {
    hide Strip, KeysOf;
    if rows != [] && GoodRow(rows[0]) {
      var k, rest := Basico(rows[0]), rows[1..];
      assert GoodPrefix(rows)[1..] == GoodPrefix(rest);
      var s := ScanRows(rows, targets);
      if k !in targets {
        FoundInGoodPrefix(rest, targets, b);
      } else {
        var t := ScanRows(rest, targets - {k});
        assert s.records[1..] == t.records;
        if k != b {
          assert FullRecords(t.records) by {
            assert forall i :: 0 <= i < |t.records| ==> t.records[i] == s.records[i + 1];
          }
          FoundInGoodPrefix(rest, targets - {k}, b);
        }
      }
    }
  }

  lemma {:induction false} ReadsGoodRows(rows: seq<Row>, targets: set<string>)
    ensures !ScanRows(rows, targets).failed ==> ScanRows(rows, targets).rowsRead <= |GoodPrefix(rows)|
    ensures ScanRows(rows, targets).failed ==> |GoodPrefix(rows)| < |rows|
  {
    hide Strip, ParseRecord;
    if rows != [] && targets != {} && GoodRow(rows[0]) {
      var k := Basico(rows[0]);
      ReadsGoodRows(rows[1..], if k in targets then targets - {k} else targets);
    }
  }

  lemma {:induction false} FoundIsKey(records: seq<Record>, b: string)
    requires FullRecords(records)
    ensures b in KeysOf(records) <==> Found(records, b).Some?
    ensures Found(records, b).Some? ==> Found(records, b).value in records && Found(records, b).value[0] == b
  {
    if records != [] {
      var rest := records[1..];
      FoundIsKey(rest, b);
      KeysOfCons(records[0], rest);
      assert records == [records[0]] + rest;
    }
  }

  // What the rows before the first bad one give a root.
  function FirstGood(files: seq<seq<Row>>, b: string): Option<Record> {
    FirstRecord(GoodPrefix(Flat(files)), b)
  }

  predicate AllGood(files: seq<seq<Row>>) {
    |GoodPrefix(Flat(files))| == |Flat(files)|
  }

  lemma ScanOutcome(rows: seq<Row>, targets: set<string>)
    ensures var s := ScanRows(rows, targets);
      && FullRecords(s.records)
      && (forall b :: b in targets ==> Found(s.records, b) == FirstRecord(GoodPrefix(rows), b))
      && (forall b :: b in s.remaining <==> b in targets && FirstRecord(GoodPrefix(rows), b) == None)
      && (s.failed <==> |GoodPrefix(rows)| < |rows| && s.remaining != {})
  {
    hide ScanRows, FirstRecord, Found, KeysOf;
    var s := ScanRows(rows, targets);
    ScanShape(rows, targets);
    ReadsGoodRows(rows, targets);
    forall b | b in targets ensures Found(s.records, b) == FirstRecord(GoodPrefix(rows), b) {
      FoundInGoodPrefix(rows, targets, b);
    }
    forall b ensures b in KeysOf(s.records) <==> Found(s.records, b).Some? {
      FoundIsKey(s.records, b);
    }
  }

  lemma {:induction false} AttachFailsExactly(kind: Kind, cs: seq<Cnpj>, r: Record)
    ensures Attach(kind, cs, r).failed <==> cs != [] && !RecordFits(kind, r)
  {
    hide CompanyRecordFits, NoNulIn;
    if cs != [] {
      AttachFailsExactly(kind, cs[1..], r);
    }
  }

  lemma {:induction false} AttachAllFailsExactly(kind: Kind, records: seq<Record>, listed: seq<Staging>)
    requires FullRecords(records) && KeysOf(records) <= Roots(listed)
    ensures AttachAll(kind, records, listed).failed <==> exists r :: r in records && !RecordFits(kind, r)
  {
    hide Attach, RecordFits, Roots, KeysOf;
    if records != [] {
      var r, rest := records[0], records[1..];
      assert records == [r] + rest;
      KeysOfCons(r, rest);
      AttachFailsExactly(kind, Group(listed, r[0]), r);
      GroupOfRoot(listed, r[0]);
      AttachAllFailsExactly(kind, rest, listed);
    }
  }

  lemma GroupOfRoot(listed: seq<Staging>, b: string)
    requires b in Roots(listed)
    ensures Group(listed, b) != []
  {
    var i :| 0 <= i < |listed| && listed[i].basico == b;
    assert Staging(listed[i].cnpj, b) == listed[i];
    assert listed[i].cnpj in Group(listed, b);
  }

  /**
   Some root is no target, or some staged root has a first record that its columns cannot hold, or has
   none although a row of another layout follows.
   */
  ghost predicate JoinFails(kind: Kind, files: seq<seq<Row>>, listed: seq<Staging>) {
    files != [] && (!RootsAreValid(listed) || exists x :: x in listed && RootFails(kind, files, x.basico))
  }

  predicate RootFails(kind: Kind, files: seq<seq<Row>>, b: string) {
    match FirstGood(files, b) case Some(r) => !RecordFits(kind, r) case None => !AllGood(files)
  }

  // Every staged root has a first record, before any row of another layout, and its columns hold it.
  ghost predicate JoinComplete(kind: Kind, files: seq<seq<Row>>, listed: seq<Staging>) {
    files != [] ==>
      RootsAreValid(listed)
      && forall x :: x in listed ==> FirstGood(files, x.basico).Some? && RecordFits(kind, FirstGood(files, x.basico).value)
  }

  // Some record of the scan does not fit exactly when some staged root has such a first record.
  lemma UnfitRecords(kind: Kind, files: seq<seq<Row>>, listed: seq<Staging>)
    ensures var records := ScanRows(Flat(files), Roots(listed)).records;
      && FullRecords(records) && KeysOf(records) <= Roots(listed)
      && ((exists r :: r in records && !RecordFits(kind, r))
          <==> exists x :: x in listed && FirstGood(files, x.basico).Some? && !RecordFits(kind, FirstGood(files, x.basico).value))
  {
    hide ScanRows, Flat, FirstRecord, Found, KeysOf, RecordFits;
    var rows, roots := Flat(files), Roots(listed);
    var records := ScanRows(rows, roots).records;
    ScanShape(rows, roots);
    ScanOutcome(rows, roots);
    if r :| r in records && !RecordFits(kind, r) {
      RecordIsFound(records, r);
      assert r[0] in roots;
      var i :| 0 <= i < |listed| && listed[i].basico == r[0];
      assert listed[i] in listed;
    }
    if x :| x in listed && FirstGood(files, x.basico).Some? && !RecordFits(kind, FirstGood(files, x.basico).value) {
      assert x.basico in roots;
      FoundIsKey(records, x.basico);
    }
  }

  lemma RecordIsFound(records: seq<Record>, r: Record)
    requires FullRecords(records) && OncePerKey(records) && r in records
    ensures r[0] in KeysOf(records) && Found(records, r[0]) == Some(r)
  {
    var i :| 0 <= i < |records| && records[i] == r;
    FoundIsKey(records, r[0]);
    var s := Found(records, r[0]).value;
    var j :| 0 <= j < |records| && records[j] == s;
  }

  lemma LeftOver(files: seq<seq<Row>>, listed: seq<Staging>)
    ensures ScanRows(Flat(files), Roots(listed)).remaining != {} <==> exists x :: x in listed && FirstGood(files, x.basico).None?
    ensures ScanRows(Flat(files), Roots(listed)).failed <==> !AllGood(files) && exists x :: x in listed && FirstGood(files, x.basico).None?
  {
    hide ScanRows, Flat, FirstRecord, Found;
    var rows, roots := Flat(files), Roots(listed);
    ScanOutcome(rows, roots);
    if b :| b in ScanRows(rows, roots).remaining {
      var i :| 0 <= i < |listed| && listed[i].basico == b;
      assert listed[i] in listed;
    }
    if x :| x in listed && FirstGood(files, x.basico).None? {
      assert x.basico in roots;
      assert x.basico in ScanRows(rows, roots).remaining;
    }
  }

  /** A join fails, and it finds every root, exactly when its files' rows say so. */
  lemma JoinOutcomeExactly(kind: Kind, files: seq<seq<Row>>, listed: seq<Staging>)
    ensures var join := JoinOf(kind, files, listed);
      && (join.Failed() <==> JoinFails(kind, files, listed))
      && (!join.Failed() && (files != [] ==> join.scan.remaining == {}) <==> JoinComplete(kind, files, listed))
  {
    hide ScanRows, AttachAll, FirstGood, RecordFits, Roots, KeysOf, AllGood;
    if files == [] {
      NothingToJoin(kind, listed);
    } else if RootsAreValid(listed) {
      UnfitRecords(kind, files, listed);
      AttachAllFailsExactly(kind, ScanRows(Flat(files), Roots(listed)).records, listed);
      LeftOver(files, listed);
    }
  }

  lemma NothingToJoin(kind: Kind, listed: seq<Staging>)
    ensures !JoinOf(kind, [], listed).Failed()
  {
  }
}
