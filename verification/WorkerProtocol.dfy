/**
 Any number of workers against one job table.  A step is one database
 transaction, one heartbeat, one local decision of a worker, a crash, or time
 passing; a run is any interleaving of steps.
 */
module WorkerProtocol {
  import opened Basics
  import opened JobServices

  // Where a worker is in its claim - execute - mark loop.
  datatype Phase = Executing | Succeeding | Failing(message: string)

  datatype Local = Idle | Working(job: JobId, attempt: nat, lost: bool, phase: Phase)

  datatype System = System(rows: Rows, now: Time, workers: map<string, Local>)

  datatype Event =
    | Enqueue(id: JobId, job: Job)
    | Advance(to: Time)
    | Claim(worker: string, lockSeconds: int, got: Option<JobId>)
    | Heartbeat(worker: string, lockSeconds: int)
    | StrayHeartbeat(worker: string, id: JobId, lockSeconds: int)
    | Finish(worker: string, error: Option<string>)
    | Mark(worker: string)
    | Crash(worker: string)

  function LocalOf(s: System, w: string): Local {
    if w in s.workers then s.workers[w] else Idle
  }

  predicate FreshJob(job: Job) {
    job.status == Pending && job.attemptCount == 0 && job.lockOwner == "" && job.lockExpiresAt == None
  }

  function AfterRecovery(s: System): Rows {
    s.rows.(jobs := Recover(s.rows.jobs, s.now))
  }

  ghost predicate Init(s: System) {
    s.rows == Rows(map[], map[]) && s.workers == map[]
  }

  ghost predicate Next(s: System, e: Event, t: System) {
    match e
    case Enqueue(id, job) =>
      id !in s.rows.jobs && FreshJob(job)
      && t == s.(rows := Rows(s.rows.jobs[id := job], s.rows.attempts[id := []]))
    case Advance(to) =>
      s.now <= to && t == s.(now := to)
    case Claim(w, lockSeconds, got) =>
      LocalOf(s, w) == Idle && ClaimStep(s, w, lockSeconds, got, t)
    case Heartbeat(w, lockSeconds) =>
      var me := LocalOf(s, w);
      me.Working? && !me.lost && lockSeconds >= 1
      && if Owned(s.rows, me.job, w)
         then t == s.(rows := RenewRows(s.rows, me.job, s.now, lockSeconds))
         else t == s.(workers := s.workers[w := me.(lost := true)])
    case StrayHeartbeat(w, id, lockSeconds) =>
      // a heartbeat thread that outlived its `join(timeout=...)`
      lockSeconds >= 1
      && t == if Owned(s.rows, id, w) then s.(rows := RenewRows(s.rows, id, s.now, lockSeconds)) else s
    case Finish(w, error) =>
      var me := LocalOf(s, w);
      me.Working? && me.phase == Executing
      && t == s.(workers := s.workers[w := me.(phase := AfterExecution(me.lost, error))])
    case Mark(w) =>
      var me := LocalOf(s, w);
      me.Working? && me.phase != Executing && me.job in s.rows.jobs && me.job in s.rows.attempts
      && t == System(MarkStep(s.rows, me, s.now, w), s.now, s.workers[w := Idle])
    case Crash(w) =>
      t == s.(workers := s.workers[w := Idle])
  }

  ghost predicate ClaimStep(s: System, w: string, lockSeconds: int, got: Option<JobId>, t: System) {
    var rows := AfterRecovery(s);
    match got
    case None => NoneEligible(rows.jobs, s.now) && t == s.(rows := rows)
    case Some(j) =>
      IsNext(rows.jobs, s.now, j) && j in rows.attempts
      && t == System(ClaimRows(rows, j, w, s.now, lockSeconds), s.now,
                     s.workers[w := Working(j, rows.jobs[j].attemptCount + 1, false, Executing)])
  }

  // An exception, or a lease found lost after the work, leads to mark_failed.
  function AfterExecution(lost: bool, error: Option<string>): Phase {
    match error
    case Some(message) => Failing(message)
    case None => if lost then Failing("JobLeaseLost") else Succeeding
  }

  function MarkStep(rows: Rows, me: Local, now: Time, w: string): Rows
    requires me.Working? && me.job in rows.jobs && me.job in rows.attempts
  {
    if !Owned(rows, me.job, w) then rows
    else if me.phase == Succeeding then SucceedRows(rows, me.job, now)
    else FailRows(rows, me.job, now, if me.phase.Failing? then me.phase.message else "")
  }

  // ---------------------------------------------------------------- the invariant

  // What a busy worker believes about its job, and what is true of it.
  ghost predicate Sound(rows: Rows, me: Local, w: string) {
    me.Working? ==>
      && me.job in rows.jobs && me.job in rows.attempts
      && 1 <= me.attempt <= |rows.attempts[me.job]|
      && rows.attempts[me.job][me.attempt - 1].worker == w
      && rows.attempts[me.job][me.attempt - 1].succeeded == None
      && (Owned(rows, me.job, w) ==> me.attempt == rows.jobs[me.job].attemptCount && !me.lost)
  }

  ghost predicate WorkersSound(s: System) {
    forall w :: Sound(s.rows, LocalOf(s, w), w)
  }

  ghost predicate Inv(s: System) {
    ConsistentRows(s.rows) && WorkersSound(s)
  }

  lemma ClaimKeepsInv(s: System, w: string, lockSeconds: int, got: Option<JobId>, t: System)
    requires Inv(s) && LocalOf(s, w) == Idle && ClaimStep(s, w, lockSeconds, got, t)
    ensures Inv(t)
  {
    hide Consistent, Sound, Recover, Precedes, ClaimRows, WorkersSound;
    RecoverKeepsConsistent(s.rows, s.now);
    RecoveryKeepsSound(s);
    var rows := AfterRecovery(s);
    if got.Some? {
      ClaimKeepsConsistent(rows, got.value, w, s.now, lockSeconds);
      LedgerLength(rows, got.value);
      ClaimKeepsSound(s.(rows := rows), w, lockSeconds, got.value, t);
    }
  }

  lemma LedgerLength(rows: Rows, j: JobId)
    requires ConsistentRows(rows) && j in rows.jobs
    ensures |rows.attempts[j]| == rows.jobs[j].attemptCount
  {
  }

  // A worker whose lease is recovered owns nothing; the others see no change.
  lemma RecoveryKeepsSound(s: System)
    requires WorkersSound(s)
    ensures WorkersSound(s.(rows := AfterRecovery(s)))
  {
    var t := s.(rows := AfterRecovery(s));
    forall v ensures Sound(t.rows, LocalOf(t, v), v) {
      assert Sound(s.rows, LocalOf(s, v), v);
    }
  }

  lemma ClaimKeepsSound(s: System, w: string, lockSeconds: int, j: JobId, t: System)
    requires WorkersSound(s) && LocalOf(s, w) == Idle && j in s.rows.jobs && j in s.rows.attempts && Eligible(s.rows.jobs[j], s.now)
    requires t == System(ClaimRows(s.rows, j, w, s.now, lockSeconds), s.now,
                         s.workers[w := Working(j, s.rows.jobs[j].attemptCount + 1, false, Executing)])
    requires |s.rows.attempts[j]| == s.rows.jobs[j].attemptCount
    ensures WorkersSound(t)
  {
    forall v ensures Sound(t.rows, LocalOf(t, v), v) {
      assert Sound(s.rows, LocalOf(s, v), v);
    }
  }

  // The rows a mark leaves, attempt by attempt.
  lemma MarkedRows(rows: Rows, j: JobId, now: Time, message: string)
    requires ConsistentRows(rows) && j in rows.jobs && rows.jobs[j].status == Running
    ensures var n := rows.jobs[j].attemptCount;
      && n > 0 && |rows.attempts[j]| == n
      && rows.attempts[j][n - 1].worker == rows.jobs[j].lockOwner
      && rows.attempts[j][n - 1].succeeded == None && rows.attempts[j][n - 1].number == n
      && SucceedRows(rows, j, now).attempts[j] == rows.attempts[j][n - 1 := Closed(rows.attempts[j][n - 1], now, true, "")]
      && FailRows(rows, j, now, message).attempts[j]
           == rows.attempts[j][n - 1 := Closed(rows.attempts[j][n - 1], now, false, Truncate(message, 10000))]
  {
    CloseTouchesTheLast(rows.jobs[j], rows.attempts[j], now, true, "");
    CloseTouchesTheLast(rows.jobs[j], rows.attempts[j], now, false, Truncate(message, 10000));
  }

  function MessageOf(me: Local): string {
    if me.Working? && me.phase.Failing? then me.phase.message else ""
  }

  // The attempt me opened gets me's outcome; every other attempt and job is as before.
  ghost predicate CommitsAttempt(rows: Rows, after: Rows, me: Local, w: string)
    requires me.Working?
  {
    && me.job in rows.jobs && me.job in rows.attempts && me.job in after.jobs && me.job in after.attempts
    && 1 <= me.attempt == rows.jobs[me.job].attemptCount == |rows.attempts[me.job]| == |after.attempts[me.job]|
    && (var a, b := rows.attempts[me.job][me.attempt - 1], after.attempts[me.job][me.attempt - 1];
        && a.worker == b.worker == w && a.number == b.number == me.attempt && a.succeeded == None
        && b.succeeded == Some(me.phase == Succeeding)
        && after.attempts == rows.attempts[me.job := rows.attempts[me.job][me.attempt - 1 := b]])
    && after.jobs == rows.jobs[me.job := after.jobs[me.job]]
    && rows.jobs[me.job].status == Running
    && after.jobs[me.job].attemptCount == me.attempt
    && after.jobs[me.job].status ==
         if me.phase == Succeeding then Succeeded
         else if me.attempt < rows.jobs[me.job].maxAttempts then RetryScheduled else Failed
  }

  lemma CommitIsOwnAttempt(rows: Rows, me: Local, now: Time, w: string)
    requires ConsistentRows(rows) && Sound(rows, me, w) && me.Working? && Owned(rows, me.job, w)
    ensures ConsistentRows(MarkStep(rows, me, now, w)) && CommitsAttempt(rows, MarkStep(rows, me, now, w), me, w)
  {
    hide Consistent, CloseNumbered, Truncate;
    MarksKeepConsistent(rows, me.job, now, MessageOf(me));
    MarkedRows(rows, me.job, now, MessageOf(me));
  }

  lemma MarkEffect(s: System, w: string, t: System)
    requires Inv(s) && Next(s, Mark(w), t)
    ensures ConsistentRows(t.rows)
    ensures var me := LocalOf(s, w);
      if Owned(s.rows, me.job, w) then !me.lost && CommitsAttempt(s.rows, t.rows, me, w) else t.rows == s.rows
  {
    hide ConsistentRows, CommitsAttempt;
    var me := LocalOf(s, w);
    assert Sound(s.rows, me, w);
    if Owned(s.rows, me.job, w) {
      CommitIsOwnAttempt(s.rows, me, s.now, w);
    }
  }

  // Closing an attempt disturbs no other worker.
  lemma SoundAfterCommit(rows: Rows, after: Rows, me: Local, w: string, other: Local, v: string)
    requires me.Working? && CommitsAttempt(rows, after, me, w) && Sound(rows, other, v) && v != w
    ensures Sound(after, other, v)
  {
  }

  lemma MarkKeepsInv(s: System, w: string, t: System)
    requires Inv(s) && Next(s, Mark(w), t)
    ensures Inv(t)
  {
    MarkEffect(s, w, t);
    var me := LocalOf(s, w);
    if Owned(s.rows, me.job, w) {
      CommitKeepsSound(s, w, t);
    } else {
      forall v ensures Sound(t.rows, LocalOf(t, v), v) {
        assert Sound(s.rows, LocalOf(s, v), v);
      }
    }
  }

  lemma CommitKeepsSound(s: System, w: string, t: System)
    requires WorkersSound(s) && LocalOf(s, w).Working? && CommitsAttempt(s.rows, t.rows, LocalOf(s, w), w)
    requires t.workers == s.workers[w := Idle]
    ensures WorkersSound(t)
  {
    forall v ensures Sound(t.rows, LocalOf(t, v), v) {
      assert Sound(s.rows, LocalOf(s, v), v);
      if v != w {
        SoundAfterCommit(s.rows, t.rows, LocalOf(s, w), w, LocalOf(s, v), v);
      }
    }
  }

  lemma OtherStepsKeepInv(s: System, e: Event, t: System)
    requires Inv(s) && Next(s, e, t) && (e.Enqueue? || e.Advance? || e.Finish? || e.Crash?)
    ensures Inv(t)
  {
    forall v ensures Sound(t.rows, LocalOf(t, v), v) {
      assert Sound(s.rows, LocalOf(s, v), v);
    }
  }

  lemma RenewKeepsSound(rows: Rows, j: JobId, now: Time, lockSeconds: int, me: Local, w: string)
    requires j in rows.jobs && Sound(rows, me, w)
    ensures Sound(RenewRows(rows, j, now, lockSeconds), me, w)
  {
  }

  lemma HeartbeatKeepsInv(s: System, e: Event, t: System)
    requires Inv(s) && Next(s, e, t) && (e.Heartbeat? || e.StrayHeartbeat?)
    ensures Inv(t)
  {
    hide Consistent, RenewRows, ConsistentRows;
    var w := e.worker;
    var j := if e.Heartbeat? then LocalOf(s, w).job else e.id;
    assert Sound(s.rows, LocalOf(s, w), w);
    if Owned(s.rows, j, w) {
      RenewKeepsConsistent(s.rows, j, s.now, e.lockSeconds);
      forall v ensures Sound(t.rows, LocalOf(t, v), v) {
        assert Sound(s.rows, LocalOf(s, v), v);
        RenewKeepsSound(s.rows, j, s.now, e.lockSeconds, LocalOf(s, v), v);
      }
    } else {
      forall v ensures Sound(t.rows, LocalOf(t, v), v) {
        assert Sound(s.rows, LocalOf(s, v), v);
      }
    }
  }

  lemma NextKeepsInv(s: System, e: Event, t: System)
    requires Inv(s) && Next(s, e, t)
    ensures Inv(t)
  {
    match e
    case Claim(w, lockSeconds, got) => ClaimKeepsInv(s, w, lockSeconds, got, t);
    case Heartbeat(_, _) => HeartbeatKeepsInv(s, e, t);
    case StrayHeartbeat(_, _, _) => HeartbeatKeepsInv(s, e, t);
    case Mark(w) => MarkKeepsInv(s, w, t);
    case _ => OtherStepsKeepInv(s, e, t);
  }

  // --------------------------------------------------------------------- whole runs

  ghost predicate IsRun(ss: seq<System>, es: seq<Event>) {
    |ss| == |es| + 1 && Init(ss[0]) && forall i :: 0 <= i < |es| ==> Next(ss[i], es[i], ss[i + 1])
  }

  /** Every state of every run satisfies the invariant. */
  lemma {:induction false} RunKeepsInv(ss: seq<System>, es: seq<Event>, i: nat)
    requires IsRun(ss, es) && i < |ss|
    ensures Inv(ss[i])
  {
    if i > 0 {
      RunKeepsInv(ss, es, i - 1);
      NextKeepsInv(ss[i - 1], es[i - 1], ss[i]);
    }
  }

  // ------------------------------------------------------------------------- fencing

  /**
   A mark commits exactly when the worker still owns its job, and then it closes the
   attempt this worker opened, with its own outcome, and touches nothing else.
   */
  lemma MarkLandsOnOwnAttempt(ss: seq<System>, es: seq<Event>, i: nat, w: string)
    requires IsRun(ss, es) && i < |es| && es[i] == Mark(w)
    ensures var me := LocalOf(ss[i], w);
      && me.Working? && me.job in ss[i].rows.jobs
      && (ss[i + 1].rows != ss[i].rows <==> Owned(ss[i].rows, me.job, w))
      && (ss[i + 1].rows != ss[i].rows ==> !me.lost && CommitsAttempt(ss[i].rows, ss[i + 1].rows, me, w))
  {
    RunKeepsInv(ss, es, i);
    assert Next(ss[i], es[i], ss[i + 1]);
    MarkEffect(ss[i], w, ss[i + 1]);
  }

  /** At most one worker can commit to a job, and it is the one that opened the newest attempt. */
  lemma OneCommitter(ss: seq<System>, es: seq<Event>, i: nat, v: string, w: string)
    requires IsRun(ss, es) && i < |ss|
    requires LocalOf(ss[i], v).Working? && LocalOf(ss[i], w).Working? && LocalOf(ss[i], v).job == LocalOf(ss[i], w).job
    ensures LocalOf(ss[i], v).attempt == LocalOf(ss[i], w).attempt ==> v == w
    ensures Owned(ss[i].rows, LocalOf(ss[i], w).job, w) ==> LocalOf(ss[i], v).attempt <= LocalOf(ss[i], w).attempt
  {
    RunKeepsInv(ss, es, i);
    assert Sound(ss[i].rows, LocalOf(ss[i], v), v) && Sound(ss[i].rows, LocalOf(ss[i], w), w);
  }

  // A worker that is busy with job j has lost its lease on it.
  ghost predicate Fenced(s: System, w: string, j: JobId) {
    LocalOf(s, w).Working? && LocalOf(s, w).job == j && !Owned(s.rows, j, w)
  }

  lemma FencedStays(s: System, e: Event, t: System, w: string, j: JobId)
    requires Inv(s) && Next(s, e, t) && Fenced(s, w, j)
    ensures LocalOf(t, w) == Idle || Fenced(t, w, j)
    ensures (e == Mark(w) || (e.Heartbeat? && e.worker == w)) ==> t.rows == s.rows
  {
    hide Consistent, CloseNumbered, Precedes;
    assert Sound(s.rows, LocalOf(s, w), w);
    match e
    case Claim(v, lockSeconds, got) =>
      assert v != w;
    case Mark(v) =>
      MarkEffect(s, v, t);
    case _ =>
  }

  /** Recovering an expired lease fences the worker that held it. */
  lemma RecoveryFences(ss: seq<System>, es: seq<Event>, i: nat, w: string)
    requires IsRun(ss, es) && i < |es| && es[i].Claim? && LocalOf(ss[i], w).Working?
    requires var j := LocalOf(ss[i], w).job; j in ss[i].rows.jobs && Expired(ss[i].rows.jobs[j], ss[i].now)
    ensures Fenced(ss[i + 1], w, LocalOf(ss[i], w).job)
  {
    RunKeepsInv(ss, es, i);
    assert Next(ss[i], es[i], ss[i + 1]);
    assert es[i].worker != w;
  }

  /** A lost lease, recovered or only noticed by the heartbeat, means fenced. */
  lemma LostMeansFenced(ss: seq<System>, es: seq<Event>, i: nat, w: string)
    requires IsRun(ss, es) && i < |ss| && LocalOf(ss[i], w).Working? && LocalOf(ss[i], w).lost
    ensures Fenced(ss[i], w, LocalOf(ss[i], w).job)
  {
    RunKeepsInv(ss, es, i);
    assert Sound(ss[i].rows, LocalOf(ss[i], w), w);
  }

  ghost predicate BusyThroughout(ss: seq<System>, i: nat, k: nat, w: string)
    requires i <= k < |ss|
  {
    forall m :: i <= m <= k ==> LocalOf(ss[m], w).Working?
  }

  /**
   Once fenced, a worker stays fenced until it drops the job: whatever the others do in
   between, its marks and its heartbeats change no row.
   */
  lemma {:induction false} StaleWorkerChangesNothing(ss: seq<System>, es: seq<Event>, i: nat, k: nat, w: string, j: JobId)
    requires IsRun(ss, es) && i <= k < |es| && Fenced(ss[i], w, j) && BusyThroughout(ss, i, k, w)
    ensures Fenced(ss[k], w, j)
    ensures (es[k] == Mark(w) || (es[k].Heartbeat? && es[k].worker == w)) ==> ss[k + 1].rows == ss[k].rows
    decreases k
  {
    hide Inv, Next, Init, Fenced, Owned;
    if i < k {
      StaleWorkerChangesNothing(ss, es, i, k - 1, w, j);
      RunKeepsInv(ss, es, k - 1);
      FencedStays(ss[k - 1], es[k - 1], ss[k], w, j);
    }
    RunKeepsInv(ss, es, k);
    FencedStays(ss[k], es[k], ss[k + 1], w, j);
  }

  /**
   From the recovery of its lease on, until it drops the job, a worker owns it at no point of the run and
   none of its marks and heartbeats changes a row, whoever claims the job meanwhile.
   */
  lemma RecoveredWorkerChangesNothing(ss: seq<System>, es: seq<Event>, i: nat, k: nat, w: string)
    requires IsRun(ss, es) && i < k < |es| && es[i].Claim? && LocalOf(ss[i], w).Working?
    requires var j := LocalOf(ss[i], w).job; j in ss[i].rows.jobs && Expired(ss[i].rows.jobs[j], ss[i].now)
    requires BusyThroughout(ss, i + 1, k, w)
    ensures Fenced(ss[k], w, LocalOf(ss[i], w).job)
    ensures (es[k] == Mark(w) || (es[k].Heartbeat? && es[k].worker == w)) ==> ss[k + 1].rows == ss[k].rows
  {
    hide Next, Init, Fenced, Expired, BusyThroughout;
    RecoveryFences(ss, es, i, w);
    StaleWorkerChangesNothing(ss, es, i + 1, k, w, LocalOf(ss[i], w).job);
  }

  // ---------------------------------------------------------------- the attempt ledger

  // b is a later ledger: closed attempts are final, and no attempt changes hands.
  ghost predicate Extends(a: seq<Attempt>, b: seq<Attempt>) {
    |a| <= |b|
    && forall i :: 0 <= i < |a| ==>
         a[i].number == b[i].number && a[i].worker == b[i].worker && (a[i].succeeded.Some? ==> a[i] == b[i])
  }

  predicate Terminal(s: Status) {
    s == Succeeded || s == Failed
  }

  ghost predicate Advances(r: Rows, q: Rows) {
    forall j :: j in r.jobs && j in r.attempts ==>
      j in q.jobs && j in q.attempts && Extends(r.attempts[j], q.attempts[j])
      && (Terminal(r.jobs[j].status) ==> q.jobs[j] == r.jobs[j] && q.attempts[j] == r.attempts[j])
  }

  lemma NextAdvances(s: System, e: Event, t: System)
    requires Inv(s) && Next(s, e, t)
    ensures Advances(s.rows, t.rows)
  {
    hide Consistent, CloseNumbered, ClaimStep, MarkStep, CommitsAttempt, Sound;
    match e
    case Mark(w) =>
      MarkEffect(s, w, t);
      if Owned(s.rows, LocalOf(s, w).job, w) {
        CommitAdvances(s.rows, t.rows, LocalOf(s, w), w);
      }
    case Claim(w, lockSeconds, got) =>
      ClaimAdvances(s, w, lockSeconds, got, t);
    case _ =>
  }

  lemma CommitAdvances(rows: Rows, after: Rows, me: Local, w: string)
    requires me.Working? && CommitsAttempt(rows, after, me, w)
    ensures Advances(rows, after)
  {
  }

  lemma ClaimAdvances(s: System, w: string, lockSeconds: int, got: Option<JobId>, t: System)
    requires ClaimStep(s, w, lockSeconds, got, t)
    ensures Advances(s.rows, t.rows)
  {
  }

  /** Over any stretch of a run the ledger only grows; SUCCEEDED and FAILED are never left. */
  lemma {:induction false} LedgerOnlyGrows(ss: seq<System>, es: seq<Event>, i: nat, k: nat)
    requires IsRun(ss, es) && i <= k < |ss|
    ensures Advances(ss[i].rows, ss[k].rows)
    decreases k
  {
    hide Next, Inv, Advances;
    AdvancesSelf(ss[i].rows);
    if i < k {
      LedgerOnlyGrows(ss, es, i, k - 1);
      RunKeepsInv(ss, es, k - 1);
      NextAdvances(ss[k - 1], es[k - 1], ss[k]);
      AdvancesChain(ss[i].rows, ss[k - 1].rows, ss[k].rows);
    }
  }

  lemma AdvancesSelf(a: Rows)
    ensures Advances(a, a)
  {
  }

  lemma AdvancesChain(a: Rows, b: Rows, c: Rows)
    requires Advances(a, b) && Advances(b, c)
    ensures Advances(a, c)
  {
  }

  // How many attempts of a ledger have the given outcome.
  function Outcomes(attempts: seq<Attempt>, outcome: Option<bool>): nat {
    if attempts == [] then 0
    else Outcomes(attempts[..|attempts| - 1], outcome) + if attempts[|attempts| - 1].succeeded == outcome then 1 else 0
  }

  lemma {:induction false} OutcomesAddUp(attempts: seq<Attempt>)
    ensures Outcomes(attempts, Some(true)) + Outcomes(attempts, Some(false)) + Outcomes(attempts, None) == |attempts|
  {
    if attempts != [] {
      OutcomesAddUp(attempts[..|attempts| - 1]);
      match attempts[|attempts| - 1].succeeded
      case None =>
      case Some(b) => if b { } else { }
    }
  }

  // If only the first n attempts can have the outcome, at most n do.
  lemma {:induction false} OutcomesBound(attempts: seq<Attempt>, outcome: Option<bool>, n: nat)
    requires forall i :: n <= i < |attempts| ==> attempts[i].succeeded != outcome
    ensures Outcomes(attempts, outcome) <= n
  {
    if |attempts| > n {
      OutcomesBound(attempts[..|attempts| - 1], outcome, n);
    } else if attempts != [] {
      OutcomesBound(attempts[..|attempts| - 1], outcome, n - 1);
    }
  }

  // Failures before the last one each left a retry open.
  lemma EarlyFailures(job: Job, attempts: seq<Attempt>, n: nat)
    requires Consistent(job, attempts) && n <= |attempts| && (n < |attempts| || job.status != Failed)
    ensures Outcomes(attempts[..n], Some(false)) <= Max(0, job.maxAttempts - 1)
  {
    OutcomesBound(attempts[..n], Some(false), Max(0, job.maxAttempts - 1));
  }

  /** At most one success, and at most max_attempts failures (one failure if max_attempts is 0). */
  lemma FailuresAreBounded(job: Job, attempts: seq<Attempt>)
    requires Consistent(job, attempts)
    ensures Outcomes(attempts, Some(true)) == if job.status == Succeeded then 1 else 0
    ensures Outcomes(attempts, Some(false)) <= Max(1, job.maxAttempts)
    ensures job.status != Failed ==> Outcomes(attempts, Some(false)) <= Max(0, job.maxAttempts - 1)
  {
    assert attempts[..|attempts|] == attempts;
    if job.status != Failed {
      EarlyFailures(job, attempts, |attempts|);
    } else {
      EarlyFailures(job, attempts, |attempts| - 1);
    }
    if attempts != [] {
      OutcomesBound(attempts[..|attempts| - 1], Some(true), 0);
    }
  }

  // ------------------------------------------------------------------ retry bound

  // The number of times a claim recovered an expired lease of job j.
  ghost function Recoveries(ss: seq<System>, es: seq<Event>, j: JobId): nat
    requires |ss| == |es| + 1
  {
    if es == [] then 0
    else
      var n := |es| - 1;
      Recoveries(ss[..n + 1], es[..n], j)
      + if es[n].Claim? && j in ss[n].rows.jobs && Expired(ss[n].rows.jobs[j], ss[n].now) then 1 else 0
  }

  // The number of times job j was claimed.
  ghost function Claims(es: seq<Event>, j: JobId): nat {
    if es == [] then 0
    else Claims(es[..|es| - 1], j) + if es[|es| - 1].Claim? && es[|es| - 1].got == Some(j) then 1 else 0
  }

  lemma OutcomesAppend(attempts: seq<Attempt>, a: Attempt, outcome: Option<bool>)
    ensures Outcomes(attempts + [a], outcome) == Outcomes(attempts, outcome) + if a.succeeded == outcome then 1 else 0
  {
    assert (attempts + [a])[..|attempts|] == attempts;
  }

  lemma OutcomesClose(attempts: seq<Attempt>, a: Attempt)
    requires attempts != [] && attempts[|attempts| - 1].succeeded == None && a.succeeded.Some?
    ensures Outcomes(attempts[|attempts| - 1 := a], None) == Outcomes(attempts, None) - 1
  {
    var b := attempts[|attempts| - 1 := a];
    assert b[..|b| - 1] == attempts[..|attempts| - 1];
  }

  function RunningCount(rows: Rows, j: JobId): nat {
    if j in rows.jobs && rows.jobs[j].status == Running then 1 else 0
  }

  function OpenCount(rows: Rows, j: JobId): nat {
    if j in rows.attempts then Outcomes(rows.attempts[j], None) else 0
  }

  function AttemptCount(rows: Rows, j: JobId): nat {
    if j in rows.jobs then rows.jobs[j].attemptCount else 0
  }

  // One step: an attempt stays open without running only when its lease is recovered.
  lemma StepAccounts(s: System, e: Event, t: System, j: JobId)
    requires Inv(s) && Next(s, e, t)
    ensures OpenCount(t.rows, j) - RunningCount(t.rows, j) - OpenCount(s.rows, j) + RunningCount(s.rows, j)
         == if e.Claim? && j in s.rows.jobs && Expired(s.rows.jobs[j], s.now) then 1 else 0
    ensures AttemptCount(t.rows, j) - AttemptCount(s.rows, j) == if e.Claim? && e.got == Some(j) then 1 else 0
  {
    hide Consistent, CloseNumbered, ClaimStep;
    match e
    case Claim(w, lockSeconds, got) => ClaimAccounts(s, w, lockSeconds, got, t, j);
    case Mark(w) => MarkAccounts(s, w, t, j);
    case _ =>
  }

  lemma RecoveryAccounts(rows: Rows, now: Time, j: JobId)
    ensures var after := rows.(jobs := Recover(rows.jobs, now));
      && OpenCount(after, j) == OpenCount(rows, j) && AttemptCount(after, j) == AttemptCount(rows, j)
      && RunningCount(rows, j) - RunningCount(after, j) == if j in rows.jobs && Expired(rows.jobs[j], now) then 1 else 0
  {
    hide Outcomes;
  }

  lemma ClaimRowsAccount(rows: Rows, i: JobId, w: string, now: Time, lockSeconds: int, j: JobId)
    requires i in rows.jobs && i in rows.attempts && Eligible(rows.jobs[i], now)
    ensures var after := ClaimRows(rows, i, w, now, lockSeconds);
      && OpenCount(after, j) - RunningCount(after, j) == OpenCount(rows, j) - RunningCount(rows, j)
      && AttemptCount(after, j) - AttemptCount(rows, j) == if i == j then 1 else 0
  {
    hide Outcomes;
    OutcomesAppend(rows.attempts[i], OpenAttempt(rows.jobs[i].attemptCount + 1, w, now), None);
  }

  lemma ClaimAccounts(s: System, w: string, lockSeconds: int, got: Option<JobId>, t: System, j: JobId)
    requires ClaimStep(s, w, lockSeconds, got, t)
    ensures OpenCount(t.rows, j) - RunningCount(t.rows, j) - OpenCount(s.rows, j) + RunningCount(s.rows, j)
         == if j in s.rows.jobs && Expired(s.rows.jobs[j], s.now) then 1 else 0
    ensures AttemptCount(t.rows, j) - AttemptCount(s.rows, j) == if got == Some(j) then 1 else 0
  {
    hide OpenCount, RunningCount, AttemptCount, Recover, ClaimRows, Precedes, Eligible;
    RecoveryAccounts(s.rows, s.now, j);
    if got.Some? {
      ClaimRowsAccount(AfterRecovery(s), got.value, w, s.now, lockSeconds, j);
    }
  }

  lemma MarkAccounts(s: System, w: string, t: System, j: JobId)
    requires Inv(s) && Next(s, Mark(w), t)
    ensures OpenCount(t.rows, j) - RunningCount(t.rows, j) == OpenCount(s.rows, j) - RunningCount(s.rows, j)
    ensures AttemptCount(t.rows, j) == AttemptCount(s.rows, j)
  {
    hide Consistent, CloseNumbered, MarkStep, Sound;
    var me := LocalOf(s, w);
    MarkEffect(s, w, t);
    if me.job == j && Owned(s.rows, j, w) {
      OutcomesClose(s.rows.attempts[j], t.rows.attempts[j][me.attempt - 1]);
    }
  }

  /** The attempts left open are exactly the recovered leases, plus the attempt now running. */
  lemma {:induction false} OpenAttemptsAreRecoveries(ss: seq<System>, es: seq<Event>, j: JobId)
    requires IsRun(ss, es)
    ensures OpenCount(ss[|es|].rows, j) == Recoveries(ss, es, j) + RunningCount(ss[|es|].rows, j)
    ensures AttemptCount(ss[|es|].rows, j) == Claims(es, j)
    decreases |es|
  {
    if es != [] {
      var n := |es| - 1;
      var ps, qs := ss[..n + 1], es[..n];
      assert IsRun(ps, qs);
      OpenAttemptsAreRecoveries(ps, qs, j);
      RunKeepsInv(ss, es, n);
      StepAccounts(ss[n], es[n], ss[n + 1], j);
    }
  }

  /**
   A job is claimed at most max_attempts times, plus once for every lease that had to be
   recovered: recovery does not look at max_attempts.
   */
  lemma ClaimsAreBounded(ss: seq<System>, es: seq<Event>, j: JobId)
    requires IsRun(ss, es) && j in ss[|es|].rows.jobs
    ensures Claims(es, j) == ss[|es|].rows.jobs[j].attemptCount
    ensures Claims(es, j) <= Max(1, ss[|es|].rows.jobs[j].maxAttempts) + Recoveries(ss, es, j)
  {
    var rows := ss[|es|].rows;
    RunKeepsInv(ss, es, |es|);
    OpenAttemptsAreRecoveries(ss, es, j);
    OutcomesAddUp(rows.attempts[j]);
    FailuresAreBounded(rows.jobs[j], rows.attempts[j]);
  }

  /** A job whose leases never expire is claimed at most max_attempts times. */
  lemma WithoutRecoveriesMaxAttemptsHolds(ss: seq<System>, es: seq<Event>, j: JobId)
    requires IsRun(ss, es) && j in ss[|es|].rows.jobs && Recoveries(ss, es, j) == 0
    ensures ss[|es|].rows.jobs[j].attemptCount <= Max(1, ss[|es|].rows.jobs[j].maxAttempts)
  {
    ClaimsAreBounded(ss, es, j);
  }

  // One job, running, whose only permitted attempt was claimed n times.
  ghost predicate RunningAlone(s: System, n: nat) {
    s.rows.jobs.Keys == {0} && s.rows.attempts.Keys == {0}
    && (var job := s.rows.jobs[0];
        job.status == Running && job.maxAttempts == 1 && job.attemptCount == n && job.runAfter <= s.now
        && job.lockExpiresAt.Some? && job.lockExpiresAt.value <= s.now + 1)
  }

  lemma CrashAndReclaim(s: System, n: nat) returns (crashed: System, later: System, t: System)
    requires RunningAlone(s, n)
    ensures Next(s, Crash("w"), crashed) && Next(crashed, Advance(s.now + 2), later) && Next(later, Claim("w", 1, Some(0)), t)
    ensures RunningAlone(t, n + 1)
  {
    crashed := s.(workers := s.workers["w" := Idle]);
    later := crashed.(now := s.now + 2);
    var rows := AfterRecovery(later);
    assert rows.jobs[0].status == RetryScheduled;
    assert IsNext(rows.jobs, later.now, 0);
    t := System(ClaimRows(rows, 0, "w", later.now, 1), later.now, later.workers["w" := Working(0, n + 1, false, Executing)]);
    assert ClaimStep(later, "w", 1, Some(0), t);
  }

  lemma FirstClaim() returns (ss: seq<System>, es: seq<Event>)
    ensures IsRun(ss, es) && RunningAlone(ss[|es|], 1)
  {
    var job := Job(Pending, 0, 0, 0, 0, 1, "", None, None, None, None, "");
    var s0 := System(Rows(map[], map[]), 0, map[]);
    var s1 := s0.(rows := Rows(map[0 := job], map[0 := []]));
    assert s1.rows == Rows(s0.rows.jobs[0 := job], s0.rows.attempts[0 := []]);
    var rows := AfterRecovery(s1);
    assert rows.jobs == map[0 := job];
    assert IsNext(rows.jobs, 0, 0);
    var s2 := System(ClaimRows(rows, 0, "w", 0, 1), 0, s1.workers["w" := Working(0, 1, false, Executing)]);
    assert ClaimStep(s1, "w", 1, Some(0), s2);
    ss, es := [s0, s1, s2], [Enqueue(0, job), Claim("w", 1, Some(0))];
    assert Next(ss[0], es[0], ss[1]) && Next(ss[1], es[1], ss[2]);
  }

  /** With expiring leases, max_attempts = 1 bounds nothing: any number of attempts is reachable. */
  lemma {:induction false} RecoveryIgnoresMaxAttempts(n: nat) returns (ss: seq<System>, es: seq<Event>)
    requires n > 0
    ensures IsRun(ss, es) && RunningAlone(ss[|es|], n)
  {
    if n == 1 {
      ss, es := FirstClaim();
    } else {
      var ps, qs := RecoveryIgnoresMaxAttempts(n - 1);
      var s := ps[|qs|];
      var a, b, c := CrashAndReclaim(s, n - 1);
      ss, es := ps + [a, b, c], qs + [Crash("w"), Advance(s.now + 2), Claim("w", 1, Some(0))];
      var k := |qs|;
      assert ss[k] == s && ss[k + 1] == a && ss[k + 2] == b && ss[k + 3] == c;
      forall i | 0 <= i < |es| ensures Next(ss[i], es[i], ss[i + 1]) {
        if i < k {
          assert ss[i] == ps[i] && ss[i + 1] == ps[i + 1] && es[i] == qs[i];
        }
      }
    }
  }

  /**
   What the loop does once its work has ended, whatever the other workers have done to the table since
   the claim: a lease found lost, or an error, leads to mark_failed, and a mark that finds the lease
   gone discards the result.  It is the Mark step of the protocol, and on a job still owned it closes
   the attempt the worker opened.
   */
  method MarkOutcome(table: JobTable, j: JobId, attempt: nat, lost: bool, error: Option<string>, done: Time, worker: string)
    returns (discarded: bool)
    requires table.Valid() && j in table.jobs && j in table.attempts
    modifies table
    ensures table.Valid() && (discarded <==> !Owned(old(table.Contents()), j, worker))
    ensures var me := Working(j, attempt, lost, AfterExecution(lost, error));
      && table.Contents() == MarkStep(old(table.Contents()), me, done, worker)
      && (!discarded && Sound(old(table.Contents()), me, worker) ==> CommitsAttempt(old(table.Contents()), table.Contents(), me, worker))
    ensures discarded ==> table.Contents() == old(table.Contents())
    ensures !discarded ==>
      && j in table.jobs && table.jobs[j].status != Running
      && (table.jobs[j].status == Succeeded <==> error == None && !lost)
      && (error.Some? ==> table.jobs[j].errorSummary == error.value[..Min(2000, |error.value|)])
      && (error == None && lost ==> table.jobs[j].errorSummary == "JobLeaseLost")
  {
    hide CommitsAttempt, Sound, ConsistentRows;
    ghost var before, me := table.Contents(), Working(j, attempt, lost, AfterExecution(lost, error));
    var message := if error.Some? then error else if lost then Some("JobLeaseLost") else None;
    var marked: Result<(), LeaseError>;
    if message.Some? {
      marked := table.MarkFailed(j, done, worker, message.value);
    } else {
      marked := table.MarkSucceeded(j, done, worker);
    }
    discarded := marked.Err?;
    if !discarded && Sound(before, me, worker) {
      CommitIsOwnAttempt(before, me, done, worker);
    }
  }

  lemma OwnedIsSound(rows: Rows, j: JobId, w: string, phase: Phase)
    requires ConsistentRows(rows) && Owned(rows, j, w)
    ensures Sound(rows, Working(j, rows.jobs[j].attemptCount, false, phase), w)
  {
  }

  /**
   One turn of the worker loop with nobody else at work: claim, execute with the
   given outcome, mark.  The rows it leaves are those of the protocol's own steps.
   */
  method RunOnce(table: JobTable, worker: string, lockSeconds: int, now: Time, error: Option<string>, done: Time)
    returns (worked: Option<JobId>)
    requires table.Valid()
    modifies table
    ensures table.Valid()
    ensures worked.None? ==> NoneEligible(Recover(old(table.jobs), now), now)
    ensures worked.Some? ==>
      var j, recovered := worked.value, Rows(Recover(old(table.jobs), now), old(table.attempts));
      && IsNext(recovered.jobs, now, j) && j in recovered.attempts
      && (var claimed := ClaimRows(recovered, j, worker, now, lockSeconds);
          var me := Working(j, claimed.jobs[j].attemptCount, false, AfterExecution(false, error));
          table.Contents() == MarkStep(claimed, me, done, worker)
          && CommitsAttempt(claimed, table.Contents(), me, worker))
    ensures worked.Some? ==>
      && worked.value in table.jobs && table.jobs[worked.value].status != Running
      && (table.jobs[worked.value].status == Succeeded <==> error == None)
  {
    hide CommitsAttempt, Sound, MarkStep, Consistent;
    worked := table.ClaimNextJob(now, worker, lockSeconds);
    if worked.Some? {
      var j := worked.value;
      OwnedIsSound(table.Contents(), j, worker, AfterExecution(false, error));
      var discarded := MarkOutcome(table, j, table.jobs[j].attemptCount, false, error, done, worker);
      assert !discarded;
    }
  }
}
