/**
 Reading rows one by one until enough of them were hits or one ends the reading, for any way
 of judging a row.
 */
module LimitedScan {
  import opened Basics
  import opened Ordering

  // A row of another layout, a hit the database refuses, or a reader that could not be made.
  datatype Fault = BadLayout | Refused | Unusable

  datatype Verdict<+E> = Bad(fault: Fault) | Miss | Hit(hit: E)

  // What the loop does: the hits kept, the rows read, and what it failed at, if it did.
  datatype Scan<+E> = Scan(found: seq<E>, rowsRead: nat, failure: Option<Fault>)
  {
    predicate Failed() {
      failure.Some?
    }

    // `stats.rows_matched`: a refused hit was counted before it was refused.
    function Matched(): nat {
      |found| + if failure == Some(Refused) then 1 else 0
    }

    // `stats.rows_invalid`
    function Invalid(): nat {
      if failure == Some(BadLayout) then 1 else 0
    }
  }

  function HitOf<E>(v: Verdict<E>): (hits: seq<E>)
    ensures |hits| <= 1
  {
    if v.Hit? then [v.hit] else []
  }

  function ScanLimited<R, E>(rows: seq<R>, judge: R -> Verdict<E>, limit: nat): Scan<E> {
    if limit == 0 || rows == [] then Scan([], 0, None)
    else
      match judge(rows[0])
      case Bad(fault) => Scan([], 1, Some(fault))
      case Miss => Before([], ScanLimited(rows[1..], judge, limit))
      case Hit(e) => Before([e], ScanLimited(rows[1..], judge, limit - 1))
  }

  function Before<E>(hits: seq<E>, s: Scan<E>): Scan<E> {
    Scan(hits + s.found, 1 + s.rowsRead, s.failure)
  }

  // ----------------------------------------------------------- the declarative form

  function Hits<R, E>(rows: seq<R>, judge: R -> Verdict<E>): seq<E> {
    if rows == [] then [] else HitOf(judge(rows[0])) + Hits(rows[1..], judge)
  }

  lemma HitsAppend<R(!new), E>(a: seq<R>, b: seq<R>, judge: R -> Verdict<E>)
    ensures Hits(a + b, judge) == Hits(a, judge) + Hits(b, judge)
  {
    hide HitOf;
    ConcatMapAppend((rows: seq<R>) => Hits(rows, judge), (row: R) => HitOf(judge(row)), a, b);
  }

  ghost predicate AllReadable<R, E>(rows: seq<R>, judge: R -> Verdict<E>) {
    forall i :: 0 <= i < |rows| ==> !judge(rows[i]).Bad?
  }

  // The rows before the first bad one.
  function Readable<R, E>(rows: seq<R>, judge: R -> Verdict<E>): (good: seq<R>)
    ensures good <= rows && AllReadable(good, judge)
    ensures |good| < |rows| ==> judge(rows[|good|]).Bad?
  {
    if rows == [] || judge(rows[0]).Bad? then []
    else
      var rest := Readable(rows[1..], judge);
      assert |rest| < |rows| - 1 ==> rows[1..][|rest|] == rows[|rest| + 1];
      [rows[0]] + rest
  }

  function Take<T>(xs: seq<T>, n: nat): seq<T> {
    if |xs| <= n then xs else xs[..n]
  }

  lemma TakeCons<T>(x: T, xs: seq<T>, n: nat)
    requires n >= 1
    ensures Take([x] + xs, n) == [x] + Take(xs, n - 1)
  {
  }

  lemma AllReadableCons<R, E>(rows: seq<R>, judge: R -> Verdict<E>)
    requires rows != []
    ensures AllReadable(rows, judge) <==> !judge(rows[0]).Bad? && AllReadable(rows[1..], judge)
  {
    if AllReadable(rows[1..], judge) {
      forall i | 1 <= i < |rows| ensures !judge(rows[i]).Bad? {
        assert rows[1..][i - 1] == rows[i];
      }
    }
  }

  /**
   The scan keeps the first `limit` hits of the readable prefix; it fails exactly when a bad
   row comes before enough hits, and it fails at the first bad row.
   */
  lemma {:induction false} ScanIsFirstHits<R, E>(rows: seq<R>, judge: R -> Verdict<E>, limit: nat)
    ensures ScanLimited(rows, judge, limit).found == Take(Hits(Readable(rows, judge), judge), limit)
    ensures ScanLimited(rows, judge, limit).Failed()
       <==> |Hits(Readable(rows, judge), judge)| < limit && !AllReadable(rows, judge)
    ensures ScanLimited(rows, judge, limit).Failed() ==>
      var n := |Readable(rows, judge)|; n < |rows| && ScanLimited(rows, judge, limit).failure == Some(judge(rows[n]).fault)
    decreases |rows|
  {
    if rows != [] {
      AllReadableCons(rows, judge);
    }
    if rows != [] && limit != 0 && !judge(rows[0]).Bad? {
      var v, good := judge(rows[0]), Readable(rows[1..], judge);
      ScanIsFirstHits(rows[1..], judge, if v.Hit? then limit - 1 else limit);
      assert Readable(rows, judge)[1..] == good;
      assert Hits(Readable(rows, judge), judge) == HitOf(v) + Hits(good, judge);
      if v.Hit? {
        TakeCons(v.hit, Hits(good, judge), limit);
      }
    }
  }

  /** Short of the limit, a scan that did not fail has read every row and kept every hit. */
  lemma {:induction false} ShortOfLimitIsExhaustive<R, E>(rows: seq<R>, judge: R -> Verdict<E>, limit: nat)
    requires !ScanLimited(rows, judge, limit).Failed() && |ScanLimited(rows, judge, limit).found| < limit
    ensures ScanLimited(rows, judge, limit).rowsRead == |rows|
    ensures ScanLimited(rows, judge, limit).found == Hits(rows, judge)
    decreases |rows|
  {
    if rows != [] {
      ShortOfLimitIsExhaustive(rows[1..], judge, if judge(rows[0]).Hit? then limit - 1 else limit);
    }
  }

  lemma {:induction false} ScanBounds<R, E>(rows: seq<R>, judge: R -> Verdict<E>, limit: nat)
    ensures |ScanLimited(rows, judge, limit).found| <= limit
    ensures |ScanLimited(rows, judge, limit).found| <= ScanLimited(rows, judge, limit).rowsRead <= |rows|
    ensures ScanLimited(rows, judge, limit).Failed() ==> |ScanLimited(rows, judge, limit).found| < limit
    decreases |rows|
  {
    if rows != [] && limit != 0 && !judge(rows[0]).Bad? {
      ScanBounds(rows[1..], judge, if judge(rows[0]).Hit? then limit - 1 else limit);
    }
  }

  // Scan some rows, then others with what is left of the limit.
  function Then<E>(s: Scan<E>, t: Scan<E>): Scan<E> {
    if s.Failed() then s else Scan(s.found + t.found, s.rowsRead + t.rowsRead, t.failure)
  }

  function Left<E>(limit: nat, s: Scan<E>): nat {
    if |s.found| <= limit then limit - |s.found| else 0
  }

  lemma ThenBefore<E>(hits: seq<E>, s: Scan<E>, t: Scan<E>)
    ensures Then(Before(hits, s), t) == Before(hits, Then(s, t))
  {
    assert (hits + s.found) + t.found == hits + (s.found + t.found);
  }

  // One row judged, then the rest.
  lemma ScanCons<R, E>(rows: seq<R>, judge: R -> Verdict<E>, limit: nat)
    requires rows != [] && limit != 0 && !judge(rows[0]).Bad?
    ensures ScanLimited(rows, judge, limit)
         == Before(HitOf(judge(rows[0])), ScanLimited(rows[1..], judge, limit - |HitOf(judge(rows[0]))|))
  {
  }

  lemma ScanAppendStep<R, E>(a: seq<R>, b: seq<R>, judge: R -> Verdict<E>, limit: nat)
    requires a != [] && limit != 0 && !judge(a[0]).Bad?
    requires var left := limit - |HitOf(judge(a[0]))|; var one := ScanLimited(a[1..], judge, left);
      ScanLimited(a[1..] + b, judge, left) == Then(one, ScanLimited(b, judge, Left(left, one)))
    ensures ScanLimited(a + b, judge, limit)
         == Then(ScanLimited(a, judge, limit), ScanLimited(b, judge, Left(limit, ScanLimited(a, judge, limit))))
  {
    hide ScanLimited;
    var hits := HitOf(judge(a[0]));
    var left := limit - |hits|;
    var one := ScanLimited(a[1..], judge, left);
    ConsAppend(a, b);
    ScanCons(a, judge, limit);
    ScanCons(a + b, judge, limit);
    ScanBounds(a[1..], judge, left);
    ThenBefore(hits, one, ScanLimited(b, judge, Left(left, one)));
  }

  lemma ScanAppendStopped<R, E>(a: seq<R>, b: seq<R>, judge: R -> Verdict<E>, limit: nat)
    requires a != [] && (limit == 0 || judge(a[0]).Bad?)
    ensures ScanLimited(a + b, judge, limit)
         == Then(ScanLimited(a, judge, limit), ScanLimited(b, judge, Left(limit, ScanLimited(a, judge, limit))))
  {
    ConsAppend(a, b);
  }

  lemma ScanAppendNothing<R, E>(b: seq<R>, judge: R -> Verdict<E>, limit: nat)
    ensures ScanLimited([] + b, judge, limit)
         == Then(ScanLimited([], judge, limit), ScanLimited(b, judge, Left(limit, ScanLimited([], judge, limit))))
  {
    assert [] + b == b;
    NothingDone(ScanLimited(b, judge, limit));
  }

  /** Scanning one part after the other is scanning their concatenation. */
  lemma {:induction false} ScanAppend<R, E>(a: seq<R>, b: seq<R>, judge: R -> Verdict<E>, limit: nat)
    ensures ScanLimited(a + b, judge, limit)
         == Then(ScanLimited(a, judge, limit), ScanLimited(b, judge, Left(limit, ScanLimited(a, judge, limit))))
    decreases |a|
  {
    hide ScanLimited, Then, Left;
    if a == [] {
      ScanAppendNothing(b, judge, limit);
    } else if limit == 0 || judge(a[0]).Bad? {
      ScanAppendStopped(a, b, judge, limit);
    } else {
      ScanAppend(a[1..], b, judge, limit - |HitOf(judge(a[0]))|);
      ScanAppendStep(a, b, judge, limit);
    }
  }

  function Advance<E>(done: Scan<E>, v: Verdict<E>): Scan<E> {
    Scan(done.found + HitOf(v), done.rowsRead + 1, None)
  }

  // Reading one more row moves it from what is left into what is done.
  lemma ScanStep<R, E>(row: R, rest: seq<R>, judge: R -> Verdict<E>, limit: nat, done: Scan<E>)
    requires !done.Failed() && |done.found| < limit && !judge(row).Bad?
    ensures var one := Advance(done, judge(row));
      Then(done, ScanLimited([row] + rest, judge, Left(limit, done))) == Then(one, ScanLimited(rest, judge, Left(limit, one)))
  {
    hide ScanLimited, HitOf;
    assert ([row] + rest)[1..] == rest;
    ScanCons([row] + rest, judge, Left(limit, done));
    Associates(done.found, HitOf(judge(row)), ScanLimited(rest, judge, Left(limit, Advance(done, judge(row)))).found);
  }

  lemma NothingDone<E>(s: Scan<E>)
    ensures Then(Scan([], 0, None), s) == s
  {
    assert [] + s.found == s.found;
  }

  lemma NothingLeft<R, E>(judge: R -> Verdict<E>, limit: nat, done: Scan<E>)
    requires !done.Failed()
    ensures Then(done, ScanLimited([], judge, limit)) == done
  {
    assert done.found + [] == done.found;
  }

  lemma LimitStops<R, E>(rows: seq<R>, judge: R -> Verdict<E>, limit: nat, done: Scan<E>)
    requires !done.Failed() && |done.found| == limit
    ensures Then(done, ScanLimited(rows, judge, Left(limit, done))) == done
  {
  }

  lemma BadRowStops<R, E>(row: R, rest: seq<R>, judge: R -> Verdict<E>, limit: nat, done: Scan<E>)
    requires !done.Failed() && |done.found| < limit && judge(row).Bad?
    ensures Then(done, ScanLimited([row] + rest, judge, Left(limit, done))) == Scan(done.found, done.rowsRead + 1, Some(judge(row).fault))
  {
  }

  lemma ThenAssociates<E>(s: Scan<E>, t: Scan<E>, u: Scan<E>)
    ensures Then(s, Then(t, u)) == Then(Then(s, t), u)
  {
    assert s.found + (t.found + u.found) == s.found + t.found + u.found;
  }

  lemma PartNext<R, E>(rows: seq<R>, rest: seq<R>, judge: R -> Verdict<E>, limit: nat, done: Scan<E>)
    requires !done.Failed() && |done.found| <= limit
    ensures var one := ScanLimited(rows, judge, Left(limit, done));
      Then(done, ScanLimited(rows + rest, judge, Left(limit, done)))
        == Then(Then(done, one), ScanLimited(rest, judge, Left(limit, Then(done, one))))
  {
    hide ScanLimited;
    var left := Left(limit, done);
    ScanAppend(rows, rest, judge, left);
    ScanBounds(rows, judge, left);
    var one := ScanLimited(rows, judge, left);
    ThenAssociates(done, one, ScanLimited(rest, judge, Left(left, one)));
  }

  /** A scan that does not fail reads row k exactly when the rows before it hold fewer hits than the limit. */
  lemma {:induction false} RowIsReadExactly<R, E>(rows: seq<R>, judge: R -> Verdict<E>, limit: nat, k: nat)
    requires !ScanLimited(rows, judge, limit).Failed()
    ensures k < ScanLimited(rows, judge, limit).rowsRead <==> k < |rows| && |Hits(rows[..k], judge)| < limit
    decreases |rows|
  {
    if rows != [] && limit > 0 && k > 0 {
      if k <= |rows| {
        assert rows[..k][0] == rows[0] && rows[..k][1..] == rows[1..][..k - 1];
      }
      RowIsReadExactly(rows[1..], judge, limit - |HitOf(judge(rows[0]))|, k - 1);
    }
  }
}
