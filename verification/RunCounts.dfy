/** What the counters of a run count, in terms of the rows of its files. */
module RunCounts {
  import opened Basics
  import opened LimitedScan
  import opened Establishments
  import opened EstablishmentScan
  import opened ComplementJoin
  import Complements

  // --------------------------------------------------------------------- the scan

  // Row k comes before enough matches.
  ghost predicate RowWanted(rows: seq<Row>, k: nat, f: Filter, limit: nat) {
    k < |rows| && |Hits(rows[..k], Wanted(f))| < limit
  }

  ghost predicate PartWanted(parts: seq<seq<Row>>, k: nat, f: Filter, limit: nat) {
    k < |parts| && |Hits(Flat(parts[..k]), Wanted(f))| < limit
  }

  // Rows and parts are taken exactly while the ones before them hold fewer matches than the limit.
  ghost predicate ScanCounts(rowsRead: nat, partsOpened: nat, parts: seq<seq<Row>>, f: Filter, limit: nat) {
    && (forall k: nat :: k < rowsRead <==> RowWanted(Flat(parts), k, f, limit))
    && (forall k: nat :: k < partsOpened <==> PartWanted(parts, k, f, limit))
  }

  lemma {:induction false} FewerHits(rows: seq<Row>, f: Filter)
    ensures |Hits(rows, Judge(f))| <= |Hits(rows, Wanted(f))|
  {
    hide ParseRow, Fits;
    if rows != [] {
      FewerHits(rows[1..], f);
    }
  }

  // Within rows that a scan got through, refused matches do not matter.
  lemma PrefixHits(rows: seq<Row>, f: Filter, limit: nat)
    requires !ScanLimited(rows, Judge(f), limit).Failed()
    ensures |ScanLimited(rows, Judge(f), limit).found| < limit <==> |Hits(rows, Wanted(f))| < limit
    ensures |Hits(rows, Judge(f))| < limit <==> |Hits(rows, Wanted(f))| < limit
  {
    hide ScanLimited, Hits, Judge, Wanted, Readable;
    var scan := ScanLimited(rows, Judge(f), limit);
    ScanIsFirstHits(rows, Judge(f), limit);
    FewerHits(rows, f);
    ReadableHits(rows, Judge(f));
    if AllReadable(rows, Judge(f)) {
      AllTakenExactly(rows, f);
    }
  }

  lemma ReadableHits(rows: seq<Row>, judge: Row -> Verdict<Establishment>)
    ensures |Hits(Readable(rows, judge), judge)| <= |Hits(rows, judge)|
    ensures AllReadable(rows, judge) ==> Readable(rows, judge) == rows
  {
    hide Hits, Readable;
    var good := Readable(rows, judge);
    assert rows == good + rows[|good|..];
    HitsAppend(good, rows[|good|..], judge);
  }

  lemma PrefixNotFailed(a: seq<Row>, b: seq<Row>, judge: Row -> Verdict<Establishment>, limit: nat)
    requires !ScanLimited(a + b, judge, limit).Failed()
    ensures !ScanLimited(a, judge, limit).Failed()
  {
    hide ScanLimited;
    ScanAppend(a, b, judge, limit);
  }

  lemma {:induction false} FlatSplits(parts: seq<seq<Row>>, k: nat)
    requires k <= |parts|
    ensures Flat(parts) == Flat(parts[..k]) + Flat(parts[k..])
  {
    hide NonBlank;
    if k == 0 {
      assert parts[..0] == [] && parts[0..] == parts;
    } else {
      FlatSplits(parts[1..], k - 1);
      assert parts[..k][1..] == parts[1..][..k - 1] && parts[1..][k - 1..] == parts[k..];
      assert NonBlank(parts[0]) + (Flat(parts[1..][..k - 1]) + Flat(parts[k..])) == (NonBlank(parts[0]) + Flat(parts[1..][..k - 1])) + Flat(parts[k..]);
    }
  }

  lemma ScanCountsRows(parts: seq<seq<Row>>, f: Filter, limit: nat)
    requires !ScanLimited(Flat(parts), Judge(f), limit).Failed()
    ensures ScanCounts(ScanLimited(Flat(parts), Judge(f), limit).rowsRead, PartsOpened(parts, Judge(f), limit), parts, f, limit)
  {
    hide ScanLimited, Hits, Judge, Wanted, Flat, PartsOpened;
    var rows, judge := Flat(parts), Judge(f);
    forall k: nat ensures k < ScanLimited(rows, judge, limit).rowsRead <==> RowWanted(rows, k, f, limit) {
      RowIsReadExactly(rows, judge, limit, k);
      if k < |rows| {
        assert rows == rows[..k] + rows[k..];
        PrefixNotFailed(rows[..k], rows[k..], judge, limit);
        PrefixHits(rows[..k], f, limit);
      }
    }
    forall k: nat ensures k < PartsOpened(parts, judge, limit) <==> PartWanted(parts, k, f, limit) {
      PartIsOpenedExactly(parts, judge, limit, k);
      if k < |parts| {
        FlatSplits(parts, k);
        PrefixNotFailed(Flat(parts[..k]), Flat(parts[k..]), judge, limit);
        PrefixHits(Flat(parts[..k]), f, limit);
      }
    }
  }

  /** The matches a scan keeps, when it does not fail, are the first ones of all the rows. */
  lemma FoundAreFirst(rows: seq<Row>, f: Filter, limit: nat)
    requires !ScanLimited(rows, Judge(f), limit).Failed()
    ensures ScanLimited(rows, Judge(f), limit).found == Take(Hits(rows, Wanted(f)), limit)
  {
    hide ScanLimited, Hits, Judge, Wanted, Readable, AllFit;
    var judge := Judge(f);
    var good := Readable(rows, judge);
    ScanIsFirstHits(rows, judge, limit);
    AllTakenExactly(good, f);
    assert rows == good + rows[|good|..];
    HitsAppend(good, rows[|good|..], Wanted(f));
    ReadableHits(rows, judge);
  }

  // --------------------------------------------------------------------- the joins

  // Some root has no record among the rows.
  ghost predicate Lacks(rows: seq<Row>, roots: set<string>) {
    exists b :: b in roots && Complements.FirstRecord(rows, b) == None
  }

  ghost function WithRecord(rows: seq<Row>, roots: set<string>): set<string> {
    set b | b in roots && Complements.FirstRecord(rows, b).Some?
  }

  ghost function WithoutRecord(rows: seq<Row>, roots: set<string>): set<string> {
    set b | b in roots && Complements.FirstRecord(rows, b) == None
  }

  // Row k comes before every root has its record.
  ghost predicate RowAwaited(rows: seq<Row>, k: nat, roots: set<string>) {
    k < |rows| && Lacks(rows[..k], roots)
  }

  ghost predicate FileAwaited(files: seq<seq<Row>>, k: nat, roots: set<string>) {
    k < |files| && Lacks(Flat(files[..k]), roots)
  }

  // Roots with and without a record, and rows and files taken exactly while some root lacks one.
  ghost predicate JoinCounts(filesOpened: nat, rowsRead: nat, matched: nat, missing: nat, files: seq<seq<Row>>, roots: set<string>) {
    && matched == |WithRecord(Flat(files), roots)| && missing == |WithoutRecord(Flat(files), roots)|
    && (forall k: nat :: k < rowsRead <==> RowAwaited(Flat(files), k, roots))
    && (forall k: nat :: k < filesOpened <==> FileAwaited(files, k, roots))
  }

  lemma RemainingLack(rows: seq<Row>, roots: set<string>)
    requires !Complements.ScanRows(rows, roots).failed
    ensures Complements.ScanRows(rows, roots).remaining == WithoutRecord(rows, roots)
    ensures Complements.ScanRows(rows, roots).remaining != {} <==> Lacks(rows, roots)
  {
    hide Complements.ScanRows, Complements.FirstRecord, Complements.KeysOf;
    var left := Complements.ScanRows(rows, roots).remaining;
    Complements.ScanShape(rows, roots);
    forall b ensures b in left <==> b in roots && Complements.FirstRecord(rows, b) == None {
      if b in roots {
        Complements.ScanFindsFirst(rows, roots, b);
      }
    }
    if left != {} {
      var b :| b in left;
      assert b in roots;
    }
  }

  lemma Sizes(matched: nat, missing: set<string>, found: set<string>, roots: set<string>)
    requires matched + |missing| == |roots| && missing + found == roots && missing !! found
    ensures matched == |found|
  {
    assert |missing + found| == |missing| + |found|;
  }

  lemma JoinCountsRows(kind: Kind, files: seq<seq<Row>>, listed: seq<Staging>)
    requires !JoinOf(kind, files, listed).Failed()
    ensures var scan := JoinOf(kind, files, listed).scan;
      JoinCounts(FilesOpened(files, Roots(listed)), scan.rowsRead, |scan.records|, |scan.remaining|, files, Roots(listed))
  {
    hide Complements.ScanRows, Complements.FirstRecord, Complements.KeysOf, Flat, AttachAll, Roots, FilesOpened, Complements.FullRecords, Lacks;
    var rows, roots := Flat(files), Roots(listed);
    var scan := Complements.ScanRows(rows, roots);
    Complements.ScanShape(rows, roots);
    RemainingLack(rows, roots);
    Sizes(|scan.records|, scan.remaining, WithRecord(rows, roots), roots);
    forall k: nat ensures k < scan.rowsRead <==> RowAwaited(rows, k, roots) {
      Complements.RowIsReadExactly(rows, roots, k);
      if k < |rows| {
        LacksIs(rows, roots, k);
      }
    }
    forall k: nat ensures k < FilesOpened(files, roots) <==> FileAwaited(files, k, roots) {
      FileIsOpenedExactly(files, roots, k);
      if k < |files| {
        FlatSplits(files, k);
        Complements.ScanConcat(Flat(files[..k]), Flat(files[k..]), roots);
        RemainingLack(Flat(files[..k]), roots);
      }
    }
  }

  lemma LacksIs(rows: seq<Row>, roots: set<string>, k: nat)
    requires k < |rows|
    ensures Lacks(rows[..k], roots) <==> exists b :: b in roots && Complements.FirstRecord(rows[..k], b) == None
  {
  }
}
