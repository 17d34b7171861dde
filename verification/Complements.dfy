/** The selective reader of the complement files: first record per target, then stop. */
module Complements {
  import opened Basics
  import opened Text
  import opened Establishments
  import Ordering

  const COMPLEMENT_COLUMN_COUNT := 7

  // A parsed complement record: its seven stripped columns.
  type Record = seq<string>

  function Basico(row: Row): string
    requires row != []
  {
    Strip(row[0])
  }

  function ParseRecord(row: Row): (r: Record)
    ensures |r| == |row| && forall i :: 0 <= i < |row| ==> r[i] == Strip(row[i])
  {
    if row == [] then [] else [Strip(row[0])] + ParseRecord(row[1..])
  }

  predicate ValidTarget(basico: string) {
    |basico| == 8 && forall i :: 0 <= i < 8 ==> IsDigitLike(basico[i])
  }

  predicate GoodRow(row: Row) {
    |row| == COMPLEMENT_COLUMN_COUNT
  }

  // What scanning non-blank rows with a shrinking target set yields.
  datatype Scan = Scan(records: seq<Record>, rowsRead: nat, remaining: set<string>, failed: bool)

  function ScanRows(rows: seq<Row>, targets: set<string>): Scan {
    if rows == [] || targets == {} then Scan([], 0, targets, false)
    else if !GoodRow(rows[0]) then Scan([], 1, targets, true)
    else
      var b := Basico(rows[0]);
      if b in targets then
        var s := ScanRows(rows[1..], targets - {b});
        Scan([ParseRecord(rows[0])] + s.records, s.rowsRead + 1, s.remaining, s.failed)
      else
        var s := ScanRows(rows[1..], targets);
        s.(rowsRead := s.rowsRead + 1)
  }

  // The first good row that carries the key.
  function FirstRecord(rows: seq<Row>, basico: string): Option<Record> {
    if rows == [] then None
    else if GoodRow(rows[0]) && Basico(rows[0]) == basico then Some(ParseRecord(rows[0]))
    else FirstRecord(rows[1..], basico)
  }

  // The record found for a key.
  function Found(records: seq<Record>, basico: string): Option<Record>
    requires forall i :: 0 <= i < |records| ==> records[i] != []
  {
    if records == [] then None
    else if records[0][0] == basico then Some(records[0])
    else Found(records[1..], basico)
  }

  function KeysOf(records: seq<Record>): set<string>
    requires forall i :: 0 <= i < |records| ==> records[i] != []
  {
    set i | 0 <= i < |records| :: records[i][0]
  }

  ghost predicate FullRecords(records: seq<Record>) {
    forall i :: 0 <= i < |records| ==> |records[i]| == COMPLEMENT_COLUMN_COUNT
  }

  // Each key once.
  ghost predicate OncePerKey(records: seq<Record>)
    requires FullRecords(records)
  {
    forall i, j :: 0 <= i < j < |records| ==> records[i][0] != records[j][0]
  }

  lemma KeysOfCons(r: Record, rs: seq<Record>)
    requires r != [] && FullRecords(rs)
    ensures KeysOf([r] + rs) == {r[0]} + KeysOf(rs)
  {
    var xs := [r] + rs;
    forall k ensures k in KeysOf(xs) <==> k == r[0] || k in KeysOf(rs) {
      if k in KeysOf(rs) {
        var i :| 0 <= i < |rs| && rs[i][0] == k;
        assert xs[i + 1][0] == k;
      }
      assert xs[0] == r;
    }
  }

  lemma OncePerKeyCons(r: Record, rs: seq<Record>)
    requires |r| == COMPLEMENT_COLUMN_COUNT && FullRecords(rs) && OncePerKey(rs) && r[0] !in KeysOf(rs)
    ensures FullRecords([r] + rs) && OncePerKey([r] + rs)
  {
    forall j | 0 <= j < |rs| ensures rs[j][0] != r[0] {
      assert rs[j][0] in KeysOf(rs);
    }
  }

  // The found keys and the left-over targets split the targets; a failure stops at a bad row.
  ghost predicate ScanIsSound(rows: seq<Row>, targets: set<string>, s: Scan) {
    && FullRecords(s.records) && OncePerKey(s.records)
    && KeysOf(s.records) !! s.remaining && KeysOf(s.records) + s.remaining == targets
    && |s.records| + |s.remaining| == |targets|
    && s.rowsRead <= |rows|
    && (s.failed ==> s.remaining != {} && s.rowsRead > 0 && !GoodRow(rows[s.rowsRead - 1]))
    && (!s.failed && s.remaining != {} ==> s.rowsRead == |rows|)
  }

  lemma KeysAfterHit(r: Record, records: seq<Record>, remaining: set<string>, targets: set<string>)
    requires r != [] && r[0] in targets && FullRecords(records)
    requires KeysOf(records) !! remaining && KeysOf(records) + remaining == targets - {r[0]}
    ensures KeysOf([r] + records) !! remaining && KeysOf([r] + records) + remaining == targets
    ensures r[0] !in KeysOf(records)
  {
    hide KeysOf;
    KeysOfCons(r, records);
    assert r[0] !in KeysOf(records) + remaining;
  }

  lemma SoundAfterHit(row: Row, rest: seq<Row>, b: string, r: Record, targets: set<string>, t: Scan)
    requires b in targets && |r| == COMPLEMENT_COLUMN_COUNT && r[0] == b
    requires ScanIsSound(rest, targets - {b}, t)
    ensures ScanIsSound([row] + rest, targets, Scan([r] + t.records, t.rowsRead + 1, t.remaining, t.failed))
  {
    hide KeysOf, FullRecords, OncePerKey;
    KeysAfterHit(r, t.records, t.remaining, targets);
    OncePerKeyCons(r, t.records);
    assert |targets - {b}| == |targets| - 1;
  }

  lemma SoundAfterMiss(row: Row, rest: seq<Row>, targets: set<string>, t: Scan)
    requires ScanIsSound(rest, targets, t)
    ensures ScanIsSound([row] + rest, targets, t.(rowsRead := t.rowsRead + 1))
  {
  }

  /** Basics matched plus basics missing are the distinct basics requested, none counted twice. */
  lemma {:induction false} ScanShape(rows: seq<Row>, targets: set<string>)
    ensures ScanIsSound(rows, targets, ScanRows(rows, targets))
  {
    hide Strip, ScanIsSound;
    if rows == [] || targets == {} || !GoodRow(rows[0]) {
      ScanShapeAtEnd(rows, targets);
    } else {
      var b, rest := Basico(rows[0]), rows[1..];
      assert rows == [rows[0]] + rest;
      if b in targets {
        ScanShape(rest, targets - {b});
        SoundAfterHit(rows[0], rest, b, ParseRecord(rows[0]), targets, ScanRows(rest, targets - {b}));
      } else {
        ScanShape(rest, targets);
        SoundAfterMiss(rows[0], rest, targets, ScanRows(rest, targets));
      }
    }
  }

  lemma ScanShapeAtEnd(rows: seq<Row>, targets: set<string>)
    requires rows == [] || targets == {} || !GoodRow(rows[0])
    ensures ScanIsSound(rows, targets, ScanRows(rows, targets))
  {
    assert KeysOf([]) == {};
  }

  /**
   Early exit or not, every target gets the record a full scan would give it: the first
   one with its key, and a target is left over only if no record has its key.
   */
  lemma {:induction false} ScanFindsFirst(rows: seq<Row>, targets: set<string>, b: string)
    requires b in targets && !ScanRows(rows, targets).failed
    ensures FullRecords(ScanRows(rows, targets).records)
    ensures Found(ScanRows(rows, targets).records, b) == FirstRecord(rows, b)
    ensures b in ScanRows(rows, targets).remaining <==> FirstRecord(rows, b) == None
  {
    ScanShape(rows, targets);
    if rows != [] {
      var k := Basico(rows[0]);
      if k in targets {
        var s, r := ScanRows(rows, targets), ScanRows(rows[1..], targets - {k});
        assert s.records[1..] == r.records;
        if k != b {
          ScanFindsFirst(rows[1..], targets - {k}, b);
        }
      } else {
        ScanFindsFirst(rows[1..], targets, b);
      }
    }
  }

  // Row i is the first one of seven columns that carries the key.
  ghost predicate IsFirstAt(rows: seq<Row>, i: nat, basico: string) {
    && i < |rows| && |rows[i]| == 7 && Strip(rows[i][0]) == basico
    && forall j :: 0 <= j < i && |rows[j]| == 7 ==> Strip(rows[j][0]) != basico
  }

  /** The record of a key holds the stripped columns of the first row that carries it, if there is one. */
  lemma {:induction false} FirstRecordIs(rows: seq<Row>, basico: string)
    ensures FirstRecord(rows, basico) == None <==> forall i :: 0 <= i < |rows| && |rows[i]| == 7 ==> Strip(rows[i][0]) != basico
    ensures FirstRecord(rows, basico).Some? ==>
      exists i: nat :: IsFirstAt(rows, i, basico) && |FirstRecord(rows, basico).value| == 7
                  && forall x :: 0 <= x < 7 ==> FirstRecord(rows, basico).value[x] == Strip(rows[i][x])
  {
    hide Strip;
    if rows != [] {
      if |rows[0]| == 7 && Strip(rows[0][0]) == basico {
        assert IsFirstAt(rows, 0, basico);
      } else {
        FirstRecordIs(rows[1..], basico);
        assert rows == [rows[0]] + rows[1..];
        if FirstRecord(rows, basico).Some? {
          var i: nat :| IsFirstAt(rows[1..], i, basico) && forall x :: 0 <= x < 7 ==> FirstRecord(rows, basico).value[x] == Strip(rows[1..][i][x]);
          assert IsFirstAt(rows, i + 1, basico);
        }
      }
    }
  }

  /** A scan that does not fail reads row k exactly when the rows before it leave some target without a record. */
  lemma {:induction false} RowIsReadExactly(rows: seq<Row>, targets: set<string>, k: nat)
    requires !ScanRows(rows, targets).failed
    ensures k < ScanRows(rows, targets).rowsRead <==> k < |rows| && exists b :: b in targets && FirstRecord(rows[..k], b) == None
  {
    hide Strip, ParseRecord;
    if rows != [] && targets != {} {
      var b0 :| b0 in targets;
      if k == 0 {
        assert FirstRecord(rows[..0], b0) == None;
      } else if k <= |rows| {
        assert rows[..k][0] == rows[0] && rows[..k][1..] == rows[1..][..k - 1];
        var key, rest := Basico(rows[0]), rows[1..];
        if key !in targets {
          assert targets - {key} == targets;
        }
        RowIsReadExactly(rest, targets - {key}, k - 1);
        if b :| b in targets && FirstRecord(rows[..k], b) == None {
          assert b in targets - {key} && FirstRecord(rest[..k - 1], b) == None;
        }
        if b :| b in targets - {key} && FirstRecord(rest[..k - 1], b) == None {
          assert b in targets && FirstRecord(rows[..k], b) == None;
        }
      } else {
        ScanShape(rows, targets);
      }
    }
  }

  // Scan some rows, then others with what is left of the targets.
  function Then(s: Scan, t: Scan): Scan {
    if s.failed then s else Scan(s.records + t.records, s.rowsRead + t.rowsRead, t.remaining, t.failed)
  }

  lemma ThenAssociates(s: Scan, t: Scan, u: Scan)
    ensures Then(s, Then(t, u)) == Then(Then(s, t), u)
  {
    assert s.records + (t.records + u.records) == s.records + t.records + u.records;
  }

  lemma NothingDone(s: Scan, targets: set<string>)
    ensures Then(Scan([], 0, targets, false), s) == s
  {
    assert [] + s.records == s.records;
  }

  // One record found, or a row passed over, before the rest.
  function Before(r: seq<Record>, s: Scan): Scan {
    Scan(r + s.records, s.rowsRead + 1, s.remaining, s.failed)
  }

  function HitOf(row: Row, targets: set<string>): seq<Record>
    requires GoodRow(row)
  {
    if Basico(row) in targets then [ParseRecord(row)] else []
  }

  lemma ScanCons(rows: seq<Row>, targets: set<string>)
    requires rows != [] && targets != {} && GoodRow(rows[0])
    ensures ScanRows(rows, targets) == Before(HitOf(rows[0], targets), ScanRows(rows[1..], targets - {Basico(rows[0])}))
  {
    hide Strip, ParseRecord;
    if Basico(rows[0]) !in targets {
      assert targets - {Basico(rows[0])} == targets;
    }
  }

  lemma FoundThen(r: seq<Record>, s: Scan, t: Scan)
    ensures Then(Before(r, s), t) == Before(r, Then(s, t))
  {
    assert (r + s.records) + t.records == r + (s.records + t.records);
  }

  lemma ScanConcatEnds(a: seq<Row>, b: seq<Row>, targets: set<string>)
    requires a == [] || targets == {} || !GoodRow(a[0])
    ensures ScanRows(a + b, targets) == Then(ScanRows(a, targets), ScanRows(b, ScanRows(a, targets).remaining))
  {
    hide Strip, ParseRecord;
    if a == [] {
      assert a + b == b;
      NothingDone(ScanRows(b, targets), targets);
    } else {
      Ordering.ConsAppend(a, b);
    }
  }

  /** Scanning one file after another with what is left is scanning their concatenation. */
  lemma {:induction false} ScanConcat(a: seq<Row>, b: seq<Row>, targets: set<string>)
    ensures ScanRows(a + b, targets) == Then(ScanRows(a, targets), ScanRows(b, ScanRows(a, targets).remaining))
  {
    hide ScanRows, Then, HitOf, Strip;
    if a == [] || targets == {} || !GoodRow(a[0]) {
      ScanConcatEnds(a, b, targets);
    } else {
      var left := targets - {Basico(a[0])};
      var one := ScanRows(a[1..], left);
      ScanConcat(a[1..], b, left);
      Ordering.ConsAppend(a, b);
      ScanCons(a, targets);
      ScanCons(a + b, targets);
      FoundThen(HitOf(a[0], targets), one, ScanRows(b, one.remaining));
    }
  }

  // One more row moves from what is left into what is done.
  function Advance(done: Scan, row: Row): Scan
    requires GoodRow(row)
  {
    var b := Basico(row);
    if b in done.remaining then Scan(done.records + [ParseRecord(row)], done.rowsRead + 1, done.remaining - {b}, false)
    else done.(rowsRead := done.rowsRead + 1)
  }

  lemma ScanStep(row: Row, rest: seq<Row>, done: Scan)
    requires !done.failed && done.remaining != {} && GoodRow(row)
    ensures Then(done, ScanRows([row] + rest, done.remaining)) == Then(Advance(done, row), ScanRows(rest, Advance(done, row).remaining))
  {
    hide Strip, ParseRecord, ScanRows;
    assert ([row] + rest)[1..] == rest;
    ScanCons([row] + rest, done.remaining);
    var t := ScanRows(rest, done.remaining - {Basico(row)});
    if Basico(row) !in done.remaining {
      assert done.remaining - {Basico(row)} == done.remaining;
    }
    Ordering.Associates(done.records, HitOf(row, done.remaining), t.records);
    assert done.records + [] == done.records;
  }

  lemma BadRowStops(row: Row, rest: seq<Row>, done: Scan)
    requires !done.failed && done.remaining != {} && !GoodRow(row)
    ensures Then(done, ScanRows([row] + rest, done.remaining)) == Scan(done.records, done.rowsRead + 1, done.remaining, true)
  {
  }

  lemma NothingLeft(rows: seq<Row>, done: Scan)
    requires !done.failed && (rows == [] || done.remaining == {})
    ensures Then(done, ScanRows(rows, done.remaining)) == done
  {
    assert done.records + [] == done.records;
  }
}
