/** The limited scan over the establishment parts, ingesting every match as it is read. */
module EstablishmentScan {
  import opened Basics
  import opened LimitedScan
  import opened Establishments
  import opened Ingestion

  function RowOps(es: seq<Establishment>): (ops: seq<Op>)
    ensures |ops| == |es| && forall i :: 0 <= i < |es| ==> ops[i] == RowOp(es[i])
  {
    seq(|es|, i requires 0 <= i < |es| => RowOp(es[i]))
  }

  lemma RowOpsAppend(xs: seq<Establishment>, ys: seq<Establishment>)
    ensures RowOps(xs + ys) == RowOps(xs) + RowOps(ys)
  {
  }

  lemma ApplyRows(db: Db, run: RunId, xs: seq<Establishment>, ys: seq<Establishment>)
    ensures ApplyAll(db, run, RowOps(xs + ys)) == ApplyAll(ApplyAll(db, run, RowOps(xs)), run, RowOps(ys))
  {
    RowOpsAppend(xs, ys);
    ApplyAllAppend(db, run, RowOps(xs), RowOps(ys));
  }

  lemma ApplyNoRows(db: Db, run: RunId)
    ensures ApplyAll(db, run, RowOps([])) == db
  {
    assert RowOps([]) == [];
  }

  lemma ApplyOneRow(db: Db, run: RunId, xs: seq<Establishment>, e: Establishment)
    ensures ApplyAll(db, run, RowOps(xs + [e])) == Apply(ApplyAll(db, run, RowOps(xs)), run, RowOp(e))
  {
    ApplyRows(db, run, xs, [e]);
    assert RowOps([e]) == [RowOp(e)] && [RowOp(e)][1..] == [];
  }

  method IngestNext(store: CnpjStore, run: RunId, e: Establishment, ghost start: Db, ghost done: seq<Establishment>) returns (ok: bool)
    requires store.Contents() == ApplyAll(start, run, RowOps(done))
    modifies store
    ensures ok <==> Fits(e)
    ensures store.Contents() == ApplyAll(start, run, RowOps(if ok then done + [e] else done))
  {
    hide Apply, ApplyAll, Fits;
    ApplyOneRow(start, run, done, e);
    ok := store.IngestRow(run, e);
  }

  /** One establishment reader, with the body of the loop that drives it. */
  method ScanPart(store: CnpjStore, run: RunId, rows: seq<Row>, f: Filter, limit: nat, matched: nat)
      returns (failed: bool, limitReached: bool, rowsRead: nat, rowsMatched: nat, rowsInvalid: nat, ghost scan: Scan<Establishment>)
    requires matched < limit
    modifies store
    ensures scan == ScanLimited(NonBlank(rows), Judge(f), limit - matched)
    ensures store.Contents() == ApplyAll(old(store.Contents()), run, RowOps(scan.found))
    ensures failed == scan.Failed() && rowsRead == scan.rowsRead && rowsMatched == scan.Matched() <= limit - matched
    ensures rowsInvalid == scan.Invalid()
    ensures limitReached <==> |scan.found| == limit - matched
  {
    hide Apply, ApplyAll, RowOps, ScanLimited, Then, ParseRow, Fits;
    ghost var judge := Judge(f);
    ghost var left := limit - matched;
    failed, limitReached, rowsRead, rowsMatched, rowsInvalid := false, false, 0, 0, 0;
    scan := Scan([], 0, None);
    ghost var start := store.Contents();
    ApplyNoRows(start, run);
    NothingDone(ScanLimited(NonBlank(rows), judge, left));
    assert rows[0..] == rows;
    var j := 0;
    while j < |rows|
      invariant j <= |rows| && rowsInvalid == 0
      invariant !scan.Failed() && scan.rowsRead == rowsRead && |scan.found| == rowsMatched < left
      invariant ScanLimited(NonBlank(rows), judge, left) == Then(scan, ScanLimited(NonBlank(rows[j..]), judge, Left(left, scan)))
      invariant store.Contents() == ApplyAll(start, run, RowOps(scan.found))
    {
      var row := rows[j];
      NonBlankNext(rows, j);
      if row != [] {
        rowsRead := rowsRead + 1;
        ghost var rest := NonBlank(rows[j + 1..]);
        var parsed := ParseRow(row);
        if parsed.None? {
          BadRowStops(row, rest, judge, left, scan);
          scan := Scan(scan.found, rowsRead, Some(BadLayout));
          return true, false, rowsRead, rowsMatched, 1, scan;
        }
        if f.Matches(parsed.value) {
          rowsMatched := rowsMatched + 1;
          var ok := IngestNext(store, run, parsed.value, start, scan.found);
          if !ok {
            BadRowStops(row, rest, judge, left, scan);
            scan := Scan(scan.found, rowsRead, Some(Refused));
            return true, false, rowsRead, rowsMatched, 0, scan;
          }
        }
        ScanStep(row, rest, judge, left, scan);
        assert Advance(scan, judge(row)).found == if f.Matches(parsed.value) then scan.found + [parsed.value] else scan.found;
        scan := Advance(scan, judge(row));
        if matched + rowsMatched >= limit {
          LimitStops(rest, judge, left, scan);
          return false, true, rowsRead, rowsMatched, 0, scan;
        }
      }
      j := j + 1;
    }
    assert rows[j..] == [];
    NothingLeft(judge, Left(left, scan), scan);
  }

  /** What a run scans; a filter that is not selective is refused by the first reader. */
  function ScanParts(parts: seq<seq<Row>>, f: Filter, limit: nat): Scan<Establishment> {
    if f.IsSelective() then ScanLimited(Flat(parts), Judge(f), limit) else Scan([], 0, Some(Unusable))
  }

  // How many parts are opened: each one while the limit is not reached.
  function PartsOpened(parts: seq<seq<Row>>, judge: Row -> Verdict<Establishment>, limit: nat): (n: nat)
    ensures n <= |parts|
  {
    if parts == [] || limit == 0 then 0
    else 1 + PartsOpened(parts[1..], judge, Left(limit, ScanLimited(NonBlank(parts[0]), judge, limit)))
  }

  lemma PartsOpenedNext(parts: seq<seq<Row>>, i: nat, judge: Row -> Verdict<Establishment>, limit: nat, done: Scan<Establishment>)
    requires i < |parts| && !done.Failed() && |done.found| < limit
    ensures var one := ScanLimited(NonBlank(parts[i]), judge, Left(limit, done));
      PartsOpened(parts[i..], judge, Left(limit, done)) == 1 + PartsOpened(parts[i + 1..], judge, Left(limit, Then(done, one)))
  {
    hide ScanLimited, NonBlank;
    ScanBounds(NonBlank(parts[i]), judge, Left(limit, done));
    assert parts[i..][1..] == parts[i + 1..];
  }

  lemma PartsOpenedAtEnd(parts: seq<seq<Row>>, judge: Row -> Verdict<Establishment>, limit: nat)
    ensures parts == [] || limit == 0 ==> PartsOpened(parts, judge, limit) == 0
  {
  }

  /** Part k is opened exactly when the parts before it hold fewer matches than the limit. */
  lemma {:induction false} PartIsOpenedExactly(parts: seq<seq<Row>>, judge: Row -> Verdict<Establishment>, limit: nat, k: nat)
    requires !ScanLimited(Flat(parts), judge, limit).Failed()
    ensures k < PartsOpened(parts, judge, limit) <==> k < |parts| && |ScanLimited(Flat(parts[..k]), judge, limit).found| < limit
    decreases |parts|
  {
    hide ScanLimited, NonBlank;
    if parts != [] && limit > 0 {
      var one := ScanLimited(NonBlank(parts[0]), judge, limit);
      ScanAppend(NonBlank(parts[0]), Flat(parts[1..]), judge, limit);
      ScanBounds(NonBlank(parts[0]), judge, limit);
      if 0 < k <= |parts| {
        PartIsOpenedExactly(parts[1..], judge, Left(limit, one), k - 1);
        assert parts[..k][1..] == parts[1..][..k - 1];
        ScanAppend(NonBlank(parts[0]), Flat(parts[1..][..k - 1]), judge, limit);
      } else if k > |parts| {
      } else {
        ScanNoRows(judge, limit);
      }
    } else if k < |parts| {
      ScanBounds(Flat(parts[..k]), judge, limit);
    }
  }

  lemma ScanNoRows(judge: Row -> Verdict<Establishment>, limit: nat)
    ensures ScanLimited(Flat([]), judge, limit).found == []
  {
  }

  method ScanEstablishments(store: CnpjStore, run: RunId, parts: seq<seq<Row>>, f: Filter, limit: nat)
      returns (failed: bool, limitReached: bool, rows: nat, matches: nat, invalid: nat, sourcesProcessed: nat)
    requires parts != [] && limit >= 1
    modifies store
    ensures var scan := ScanParts(parts, f, limit);
      && store.Contents() == ApplyAll(old(store.Contents()), run, RowOps(scan.found))
      && failed == scan.Failed() && rows == scan.rowsRead && matches == scan.Matched() && invalid == scan.Invalid()
      && (!failed ==> (limitReached <==> |scan.found| == limit))
    ensures !failed ==> sourcesProcessed == PartsOpened(parts, Judge(f), limit)
  {
    hide Apply, ApplyAll, RowOps, ScanLimited, Judge, JudgeRow, PartsOpened;
    failed, limitReached, rows, matches, invalid, sourcesProcessed := false, false, 0, 0, 0, 0;
    ghost var judge := Judge(f);
    ghost var scan: Scan<Establishment> := Scan([], 0, None);
    ghost var start := store.Contents();
    ApplyNoRows(start, run);
    NothingDone(ScanLimited(Flat(parts), judge, limit));
    assert parts[0..] == parts;
    var i := 0;
    while i < |parts|
      invariant i <= |parts| && (if i == 0 then scan == Scan([], 0, None) else f.IsSelective())
      invariant !scan.Failed() && scan.rowsRead == rows && |scan.found| == matches <= limit && invalid == 0
      invariant ScanLimited(Flat(parts), judge, limit) == Then(scan, ScanLimited(Flat(parts[i..]), judge, Left(limit, scan)))
      invariant store.Contents() == ApplyAll(start, run, RowOps(scan.found))
      invariant limitReached <==> matches == limit
      invariant PartsOpened(parts, judge, limit) == sourcesProcessed + PartsOpened(parts[i..], judge, Left(limit, scan))
    {
      if matches >= limit {
        limitReached := true;
        break;
      }
      if !f.IsSelective() {
        return true, false, 0, 0, 0, 0;
      }
      sourcesProcessed := sourcesProcessed + 1;
      FlatFrom(parts, i);
      PartNext(NonBlank(parts[i]), Flat(parts[i + 1..]), judge, limit, scan);
      PartsOpenedNext(parts, i, judge, limit, scan);
      ghost var one;
      var read, hits, bad;
      failed, limitReached, read, hits, bad, one := ScanPart(store, run, parts[i], f, limit, matches);
      ApplyRows(start, run, scan.found, one.found);
      scan := Then(scan, one);
      rows, matches, invalid := rows + read, matches + hits, invalid + bad;
      if failed {
        return true, false, rows, matches, invalid, sourcesProcessed;
      }
      i := i + 1;
    }
    PartsOpenedAtEnd(parts[i..], judge, Left(limit, scan));
    if matches == limit {
      LimitStops(Flat(parts[i..]), judge, limit, scan);
    } else {
      assert parts[i..] == [];
      NothingLeft(judge, Left(limit, scan), scan);
    }
  }
}
