/**
 The persisted job table and its attempt ledger.  Every database transaction is
 one method; what it does to the rows is given by a function on row values.
 */
module JobServices {
  import opened Basics

  type JobId = nat
  type Time = int

  datatype Status = Pending | Running | RetryScheduled | Succeeded | Failed | Cancelled

  datatype Job = Job(
    status: Status,
    priority: int,
    createdAt: Time,
    runAfter: Time,
    attemptCount: nat,
    maxAttempts: nat,
    lockOwner: string,
    lockExpiresAt: Option<Time>,
    heartbeatAt: Option<Time>,
    startedAt: Option<Time>,
    finishedAt: Option<Time>,
    errorSummary: string)

  datatype Attempt = Attempt(
    number: nat,
    worker: string,
    startedAt: Time,
    finishedAt: Option<Time>,
    succeeded: Option<bool>,
    errorDetail: string)

  datatype Rows = Rows(jobs: map<JobId, Job>, attempts: map<JobId, seq<Attempt>>)

  // ------------------------------------------------------------------ claiming

  predicate Expired(job: Job, now: Time) {
    job.status == Running && job.lockExpiresAt.Some? && job.lockExpiresAt.value < now
  }

  function Recovered(job: Job): Job {
    job.(status := RetryScheduled, lockOwner := "", lockExpiresAt := None)
  }

  function Recover(jobs: map<JobId, Job>, now: Time): map<JobId, Job> {
    map j | j in jobs :: if Expired(jobs[j], now) then Recovered(jobs[j]) else jobs[j]
  }

  predicate Eligible(job: Job, now: Time) {
    (job.status == Pending || job.status == RetryScheduled) && job.runAfter <= now
  }

  // Order by priority (highest first), then run_after, then created_at.
  predicate Precedes(a: Job, b: Job) {
    a.priority > b.priority
    || (a.priority == b.priority
        && (a.runAfter < b.runAfter || (a.runAfter == b.runAfter && a.createdAt <= b.createdAt)))
  }

  predicate IsNext(jobs: map<JobId, Job>, now: Time, j: JobId) {
    j in jobs && Eligible(jobs[j], now)
    && forall k :: k in jobs && Eligible(jobs[k], now) ==> Precedes(jobs[j], jobs[k])
  }

  predicate NoneEligible(jobs: map<JobId, Job>, now: Time) {
    forall k :: k in jobs ==> !Eligible(jobs[k], now)
  }

  function Claimed(job: Job, worker: string, now: Time, lockSeconds: int): Job {
    job.(status := Running,
         attemptCount := job.attemptCount + 1,
         lockOwner := worker,
         lockExpiresAt := Some(now + lockSeconds),
         heartbeatAt := Some(now),
         startedAt := if job.startedAt.None? then Some(now) else job.startedAt)
  }

  function OpenAttempt(number: nat, worker: string, now: Time): Attempt {
    Attempt(number, worker, now, None, None, "")
  }

  function ClaimRows(rows: Rows, j: JobId, worker: string, now: Time, lockSeconds: int): Rows
    requires j in rows.jobs && j in rows.attempts
  {
    var job := Claimed(rows.jobs[j], worker, now, lockSeconds);
    Rows(rows.jobs[j := job],
         rows.attempts[j := rows.attempts[j] + [OpenAttempt(job.attemptCount, worker, now)]])
  }

  // ------------------------------------------------------------- lease and marks

  predicate Owned(rows: Rows, j: JobId, worker: string) {
    j in rows.jobs && rows.jobs[j].status == Running && rows.jobs[j].lockOwner == worker
  }

  function Renewed(job: Job, now: Time, lockSeconds: int): Job {
    job.(heartbeatAt := Some(now), lockExpiresAt := Some(now + lockSeconds))
  }

  function RenewRows(rows: Rows, j: JobId, now: Time, lockSeconds: int): Rows
    requires j in rows.jobs
  {
    rows.(jobs := rows.jobs[j := Renewed(rows.jobs[j], now, lockSeconds)])
  }

  // `attempts.filter(attempt_number=n).update(...)`
  function CloseNumbered(attempts: seq<Attempt>, n: nat, now: Time, outcome: bool, detail: string): (r: seq<Attempt>)
    ensures |r| == |attempts|
    ensures forall i :: 0 <= i < |r| ==>
      r[i] == if attempts[i].number == n then Closed(attempts[i], now, outcome, detail) else attempts[i]
  {
    if attempts == [] then []
    else
      var a := attempts[0];
      [if a.number == n then Closed(a, now, outcome, detail) else a] + CloseNumbered(attempts[1..], n, now, outcome, detail)
  }

  // A success leaves error_detail as it was.
  function Closed(a: Attempt, now: Time, outcome: bool, detail: string): Attempt {
    a.(finishedAt := Some(now), succeeded := Some(outcome), errorDetail := if outcome then a.errorDetail else detail)
  }

  function Truncate(s: string, limit: nat): string {
    if |s| <= limit then s else s[..limit]
  }

  function Power2(n: nat): nat {
    if n == 0 then 1 else 2 * Power2(n - 1)
  }

  function Backoff(attempt: nat): int {
    Min(300, Power2(attempt))
  }

  function SucceededJob(job: Job, now: Time): Job {
    job.(status := Succeeded, finishedAt := Some(now), lockOwner := "", lockExpiresAt := None, errorSummary := "")
  }

  function FailedJob(job: Job, now: Time, message: string): Job {
    var retry := job.attemptCount < job.maxAttempts;
    job.(status := if retry then RetryScheduled else Failed,
         runAfter := now + Backoff(job.attemptCount),
         finishedAt := if retry then None else Some(now),
         lockOwner := "", lockExpiresAt := None,
         errorSummary := Truncate(message, 2000))
  }

  // The job row and its current attempt after a mark.
  function MarkRows(rows: Rows, j: JobId, now: Time, job: Job, outcome: bool, message: string): Rows
    requires j in rows.jobs && j in rows.attempts
  {
    Rows(rows.jobs[j := job],
         rows.attempts[j := CloseNumbered(rows.attempts[j], rows.jobs[j].attemptCount, now, outcome, Truncate(message, 10000))])
  }

  function SucceedRows(rows: Rows, j: JobId, now: Time): Rows
    requires j in rows.jobs && j in rows.attempts
  {
    MarkRows(rows, j, now, SucceededJob(rows.jobs[j], now), true, "")
  }

  function FailRows(rows: Rows, j: JobId, now: Time, message: string): Rows
    requires j in rows.jobs && j in rows.attempts
  {
    MarkRows(rows, j, now, FailedJob(rows.jobs[j], now, message), false, message)
  }

  // --------------------------------------------------------------- the row invariant

  // What every transaction keeps true of one job and its attempts.
  ghost predicate Consistent(job: Job, attempts: seq<Attempt>) {
    && |attempts| == job.attemptCount
    && (forall i :: 0 <= i < |attempts| ==> attempts[i].number == i + 1)
    && (forall i :: 0 <= i < |attempts| ==> (attempts[i].finishedAt.Some? <==> attempts[i].succeeded.Some?))
    && job.status != Cancelled
    && (job.status == Pending ==> job.attemptCount == 0)
    && (job.status == Running ==>
          job.attemptCount > 0 && job.lockExpiresAt.Some?
          && attempts[job.attemptCount - 1].worker == job.lockOwner
          && attempts[job.attemptCount - 1].succeeded == None)
    && (job.status == Succeeded ==> job.attemptCount > 0 && attempts[job.attemptCount - 1].succeeded == Some(true))
    && (job.status == Failed ==>
          job.attemptCount > 0 && attempts[job.attemptCount - 1].succeeded == Some(false)
          && job.attemptCount >= job.maxAttempts)
    && (forall i :: 0 <= i < |attempts| && attempts[i].succeeded == Some(true) ==>
          job.status == Succeeded && i == job.attemptCount - 1)
    && (forall i :: 0 <= i < |attempts| && attempts[i].succeeded == Some(false) ==>
          i + 1 < job.maxAttempts || (job.status == Failed && i == job.attemptCount - 1))
  }

  ghost predicate ConsistentRows(rows: Rows) {
    rows.attempts.Keys == rows.jobs.Keys
    && forall j :: j in rows.jobs ==> Consistent(rows.jobs[j], rows.attempts[j])
  }

  lemma RecoverKeepsConsistent(rows: Rows, now: Time)
    requires ConsistentRows(rows)
    ensures ConsistentRows(rows.(jobs := Recover(rows.jobs, now)))
  {
    assert Recover(rows.jobs, now).Keys == rows.jobs.Keys;
  }

  lemma ClaimIsConsistent(job: Job, attempts: seq<Attempt>, worker: string, now: Time, lockSeconds: int)
    requires Consistent(job, attempts) && Eligible(job, now)
    ensures Consistent(Claimed(job, worker, now, lockSeconds),
                       attempts + [OpenAttempt(job.attemptCount + 1, worker, now)])
  {
  }

  lemma ClaimKeepsConsistent(rows: Rows, j: JobId, worker: string, now: Time, lockSeconds: int)
    requires ConsistentRows(rows) && j in rows.jobs && Eligible(rows.jobs[j], now)
    ensures ConsistentRows(ClaimRows(rows, j, worker, now, lockSeconds))
  {
    hide Consistent, Eligible;
    ClaimIsConsistent(rows.jobs[j], rows.attempts[j], worker, now, lockSeconds);
  }

  lemma RenewalIsConsistent(job: Job, attempts: seq<Attempt>, now: Time, lockSeconds: int)
    requires Consistent(job, attempts)
    ensures job.status == Running ==> Consistent(Renewed(job, now, lockSeconds), attempts)
  {
  }

  lemma RenewKeepsConsistent(rows: Rows, j: JobId, now: Time, lockSeconds: int)
    requires ConsistentRows(rows) && j in rows.jobs && rows.jobs[j].status == Running
    ensures ConsistentRows(RenewRows(rows, j, now, lockSeconds))
  {
    hide Consistent;
    RenewalIsConsistent(rows.jobs[j], rows.attempts[j], now, lockSeconds);
  }

  // Under the invariant only the newest attempt carries the current number.
  lemma CloseTouchesTheLast(job: Job, attempts: seq<Attempt>, now: Time, outcome: bool, detail: string)
    requires Consistent(job, attempts) && job.attemptCount > 0
    ensures CloseNumbered(attempts, job.attemptCount, now, outcome, detail)
         == attempts[job.attemptCount - 1 := Closed(attempts[job.attemptCount - 1], now, outcome, detail)]
  {
  }

  lemma SuccessIsConsistent(job: Job, attempts: seq<Attempt>, now: Time)
    requires Consistent(job, attempts) && job.status == Running
    ensures Consistent(SucceededJob(job, now), CloseNumbered(attempts, job.attemptCount, now, true, ""))
  {
    CloseTouchesTheLast(job, attempts, now, true, "");
  }

  lemma FailureIsConsistent(job: Job, attempts: seq<Attempt>, now: Time, message: string, detail: string)
    requires Consistent(job, attempts) && job.status == Running
    ensures Consistent(FailedJob(job, now, message), CloseNumbered(attempts, job.attemptCount, now, false, detail))
  {
    CloseTouchesTheLast(job, attempts, now, false, detail);
  }

  lemma MarksKeepConsistent(rows: Rows, j: JobId, now: Time, message: string)
    requires ConsistentRows(rows) && j in rows.jobs && rows.jobs[j].status == Running
    ensures ConsistentRows(SucceedRows(rows, j, now)) && ConsistentRows(FailRows(rows, j, now, message))
  {
    hide Consistent, CloseNumbered, FailedJob;
    SuccessIsConsistent(rows.jobs[j], rows.attempts[j], now);
    FailureIsConsistent(rows.jobs[j], rows.attempts[j], now, message, Truncate(message, 10000));
  }

  lemma NextGoesFirst(jobs: map<JobId, Job>, now: Time, j: JobId)
    requires IsNext(jobs, now, j)
    ensures j in jobs && jobs[j].runAfter <= now && (jobs[j].status == Pending || jobs[j].status == RetryScheduled)
    ensures forall k :: k in jobs && (jobs[k].status == Pending || jobs[k].status == RetryScheduled) && jobs[k].runAfter <= now ==>
      && jobs[j].priority >= jobs[k].priority
      && (jobs[j].priority == jobs[k].priority ==> jobs[j].runAfter <= jobs[k].runAfter)
      && (jobs[j].priority == jobs[k].priority && jobs[j].runAfter == jobs[k].runAfter ==> jobs[j].createdAt <= jobs[k].createdAt)
  {
  }

  // A first job exists whenever some job is eligible.
  lemma {:induction false} FirstExists(jobs: map<JobId, Job>, now: Time, among: set<JobId>) returns (first: JobId)
    requires among != {} && forall k :: k in among ==> k in jobs && Eligible(jobs[k], now)
    ensures first in among && forall k :: k in among ==> Precedes(jobs[first], jobs[k])
    decreases |among|
  {
    var k :| k in among;
    if among == {k} {
      first := k;
    } else {
      var rest := among - {k};
      assert rest < among;
      var r := FirstExists(jobs, now, rest);
      first := if Precedes(jobs[k], jobs[r]) then k else r;
    }
  }

  lemma NextExists(jobs: map<JobId, Job>, now: Time)
    requires !NoneEligible(jobs, now)
    ensures exists j :: j in jobs && IsNext(jobs, now, j)
  {
    var some :| some in jobs && Eligible(jobs[some], now);
    var eligible := set k | k in jobs && Eligible(jobs[k], now);
    assert some in eligible;
    var first := FirstExists(jobs, now, eligible);
    assert IsNext(jobs, now, first);
  }

  /** Retries wait longer and longer, and never more than five minutes. */
  lemma {:induction false} BackoffGrows(m: nat, n: nat)
    requires m <= n
    ensures 1 <= Backoff(m) <= Backoff(n) <= 300
  {
    PowerGrows(m, n);
    PowerGrows(0, m);
  }

  lemma {:induction false} PowerGrows(m: nat, n: nat)
    requires m <= n
    ensures 1 <= Power2(m) <= Power2(n)
  {
    if m < n {
      PowerGrows(m, n - 1);
    } else if n > 0 {
      PowerGrows(m - 1, n - 1);
    }
  }

  // Seconds to wait after the failure of attempt 0, 1, 2, ...; five minutes from the ninth on.
  const DELAYS: seq<int> := [1, 2, 4, 8, 16, 32, 64, 128, 256]

  const LONGEST_DELAY := 300

  function Delay(attempt: nat): int {
    if attempt < |DELAYS| then DELAYS[attempt] else LONGEST_DELAY
  }

  lemma BackoffIsDelay(k: nat)
    ensures Backoff(k) == Delay(k)
  {
    assert Power2(1) == 2 && Power2(2) == 4 && Power2(3) == 8 && Power2(4) == 16;
    assert Power2(5) == 32 && Power2(6) == 64 && Power2(7) == 128 && Power2(8) == 256 && Power2(9) == 512;
    if k >= |DELAYS| {
      PowerGrows(9, k);
    }
  }

  // The jobs the claim does not take: RUNNING past the end of its lock becomes RETRY_SCHEDULED, the others stay.
  ghost predicate LapsedReturn(before: Rows, after: Rows, now: Time, claimed: Option<JobId>) {
    && after.jobs.Keys == before.jobs.Keys && after.attempts.Keys == before.attempts.Keys
    && (forall j :: j in after.attempts && claimed != Some(j) ==> after.attempts[j] == before.attempts[j])
    && (forall j :: j in after.jobs && claimed != Some(j) ==>
          var was := before.jobs[j];
          after.jobs[j] == if was.status == Running && was.lockExpiresAt.Some? && was.lockExpiresAt.value < now
                           then was.(status := RetryScheduled, lockOwner := "", lockExpiresAt := None) else was)
  }

  ghost predicate NoneWaits(rows: Rows, now: Time) {
    forall j :: j in rows.jobs ==>
      !((rows.jobs[j].status == Pending || rows.jobs[j].status == RetryScheduled) && rows.jobs[j].runAfter <= now)
  }

  // Job j was due, no job left waiting goes before it, and the worker gets a lease and a new attempt on it.
  ghost predicate TakesTheFirst(before: Rows, after: Rows, now: Time, worker: string, lockSeconds: int, j: JobId) {
    && j in before.jobs && j in before.attempts && j in after.jobs && j in after.attempts
    && (var was := before.jobs[j];
        && was.runAfter <= now
        && (|| was.status == Pending || was.status == RetryScheduled
            || (was.status == Running && was.lockExpiresAt.Some? && was.lockExpiresAt.value < now))
        && after.jobs[j] == was.(status := Running, attemptCount := was.attemptCount + 1, lockOwner := worker,
                                 lockExpiresAt := Some(now + lockSeconds), heartbeatAt := Some(now),
                                 startedAt := if was.startedAt.Some? then was.startedAt else Some(now))
        && after.attempts[j] == before.attempts[j] + [Attempt(was.attemptCount + 1, worker, now, None, None, "")]
        && forall k :: k in after.jobs && (after.jobs[k].status == Pending || after.jobs[k].status == RetryScheduled)
                       && after.jobs[k].runAfter <= now ==>
             && was.priority >= after.jobs[k].priority
             && (was.priority == after.jobs[k].priority ==> was.runAfter <= after.jobs[k].runAfter)
             && (was.priority == after.jobs[k].priority && was.runAfter == after.jobs[k].runAfter ==>
                   was.createdAt <= after.jobs[k].createdAt))
  }

  lemma RecoveryReturnsLapsed(rows: Rows, now: Time)
    requires NoneEligible(Recover(rows.jobs, now), now)
    ensures var after := rows.(jobs := Recover(rows.jobs, now)); LapsedReturn(rows, after, now, None) && NoneWaits(after, now)
  {
  }

  lemma ClaimReturnsLapsed(rows: Rows, j: JobId, worker: string, now: Time, lockSeconds: int)
    requires j in rows.jobs && j in rows.attempts
    ensures LapsedReturn(rows, ClaimRows(rows.(jobs := Recover(rows.jobs, now)), j, worker, now, lockSeconds), now, Some(j))
  {
    hide Claimed;
    var after := ClaimRows(rows.(jobs := Recover(rows.jobs, now)), j, worker, now, lockSeconds);
    assert after.jobs.Keys == rows.jobs.Keys && after.attempts.Keys == rows.attempts.Keys;
  }

  lemma ClaimTakesFirst(rows: Rows, j: JobId, worker: string, now: Time, lockSeconds: int)
    requires j in rows.jobs && j in rows.attempts && IsNext(Recover(rows.jobs, now), now, j)
    ensures TakesTheFirst(rows, ClaimRows(rows.(jobs := Recover(rows.jobs, now)), j, worker, now, lockSeconds), now, worker, lockSeconds, j)
  {
    hide IsNext;
    NextGoesFirst(Recover(rows.jobs, now), now, j);
  }

  // The current attempt of job j, the newest one, gets its outcome; no other attempt of any job changes.
  ghost predicate ClosesCurrent(before: Rows, after: Rows, j: JobId, now: Time, outcome: bool, detail: string) {
    && j in before.jobs && j in before.attempts
    && (var n := before.jobs[j].attemptCount;
        && 1 <= n == |before.attempts[j]|
        && (var a := before.attempts[j][n - 1];
            && a.number == n
            && after.attempts == before.attempts[j := before.attempts[j][n - 1 :=
                 Attempt(n, a.worker, a.startedAt, Some(now), Some(outcome), if outcome then a.errorDetail else detail)]]))
  }

  lemma MarkClosesCurrent(rows: Rows, j: JobId, now: Time, message: string)
    requires ConsistentRows(rows) && j in rows.jobs && rows.jobs[j].status == Running
    ensures ClosesCurrent(rows, SucceedRows(rows, j, now), j, now, true, "")
    ensures ClosesCurrent(rows, FailRows(rows, j, now, message), j, now, false, message[..Min(10000, |message|)])
  {
    hide CloseNumbered, FailedJob, SucceededJob;
    CloseTouchesTheLast(rows.jobs[j], rows.attempts[j], now, true, "");
    CloseTouchesTheLast(rows.jobs[j], rows.attempts[j], now, false, Truncate(message, 10000));
    assert message[..|message|] == message;
  }

  datatype LeaseError = LeaseLost | BadLockSeconds

  class JobTable {
    var jobs: map<JobId, Job>
    var attempts: map<JobId, seq<Attempt>>

    ghost function Contents(): Rows
      reads this
    {
      Rows(jobs, attempts)
    }

    ghost predicate Valid()
      reads this
    {
      ConsistentRows(Contents())
    }

    constructor ()
      ensures Valid() && Contents() == Rows(map[], map[])
    {
      jobs := map[];
      attempts := map[];
    }

    /**
     Recovers every expired lease, then claims the first eligible job, if any.  The rows after it are given
     twice: as the step of the protocol, and column by column.
     */
    method ClaimNextJob(now: Time, worker: string, lockSeconds: int) returns (claimed: Option<JobId>)
      requires Valid()
      modifies this
      ensures Valid()
      ensures LapsedReturn(old(Contents()), Contents(), now, claimed)
      ensures claimed.None? ==> NoneWaits(Contents(), now)
      ensures claimed.Some? ==> TakesTheFirst(old(Contents()), Contents(), now, worker, lockSeconds, claimed.value)
      ensures claimed.None? ==> NoneEligible(Recover(old(jobs), now), now)
                                && Contents() == Rows(Recover(old(jobs), now), old(attempts))
      ensures claimed.Some? ==> IsNext(Recover(old(jobs), now), now, claimed.value)
                                && Contents() == ClaimRows(Rows(Recover(old(jobs), now), old(attempts)), claimed.value, worker, now, lockSeconds)
    {
      hide Consistent, Precedes, LapsedReturn, NoneWaits, TakesTheFirst;
      ghost var before := Contents();
      RecoverKeepsConsistent(Contents(), now);
      jobs := map j | j in jobs :: if Expired(jobs[j], now) then Recovered(jobs[j]) else jobs[j];
      assert jobs == Recover(old(jobs), now);
      if NoneEligible(jobs, now) {
        RecoveryReturnsLapsed(before, now);
        return None;
      }
      NextExists(jobs, now);
      var j :| j in jobs && IsNext(jobs, now, j);
      ClaimReturnsLapsed(before, j, worker, now, lockSeconds);
      ClaimTakesFirst(before, j, worker, now, lockSeconds);
      ClaimKeepsConsistent(Contents(), j, worker, now, lockSeconds);
      var job := jobs[j];
      job := job.(status := Running, attemptCount := job.attemptCount + 1, lockOwner := worker);
      job := job.(lockExpiresAt := Some(now + lockSeconds), heartbeatAt := Some(now));
      if job.startedAt.None? {
        job := job.(startedAt := Some(now));
      }
      assert job == Claimed(jobs[j], worker, now, lockSeconds);
      jobs := jobs[j := job];
      attempts := attempts[j := attempts[j] + [Attempt(job.attemptCount, worker, now, None, None, "")]];
      return Some(j);
    }

    method RenewJobLease(j: JobId, now: Time, worker: string, lockSeconds: int) returns (renewed: Result<bool, LeaseError>)
      requires Valid()
      modifies this`jobs
      ensures Valid()
      ensures lockSeconds < 1 <==> renewed == Err(BadLockSeconds)
      ensures renewed.Ok? ==> renewed.value == Owned(old(Contents()), j, worker)
      ensures Contents() == if renewed == Ok(true) then RenewRows(old(Contents()), j, now, lockSeconds) else old(Contents())
      ensures lockSeconds >= 1 ==>
        if j in old(jobs) && old(jobs)[j].status == Running && old(jobs)[j].lockOwner == worker
        then renewed == Ok(true) && jobs == old(jobs)[j := old(jobs)[j].(heartbeatAt := Some(now), lockExpiresAt := Some(now + lockSeconds))]
        else renewed == Ok(false) && jobs == old(jobs)
    {
      hide Consistent;
      if lockSeconds < 1 {
        return Err(BadLockSeconds);
      }
      if j in jobs && jobs[j].status == Running && jobs[j].lockOwner == worker {
        RenewKeepsConsistent(Contents(), j, now, lockSeconds);
        jobs := jobs[j := jobs[j].(heartbeatAt := Some(now), lockExpiresAt := Some(now + lockSeconds))];
        return Ok(true);
      }
      return Ok(false);
    }

    method MarkSucceeded(j: JobId, now: Time, worker: string) returns (r: Result<(), LeaseError>)
      requires Valid() && j in jobs
      modifies this
      ensures Valid()
      ensures r.Ok? <==> Owned(old(Contents()), j, worker)
      ensures Contents() == if r.Ok? then SucceedRows(old(Contents()), j, now) else old(Contents())
      ensures r.Ok? <==> old(jobs)[j].status == Running && old(jobs)[j].lockOwner == worker
      ensures r.Ok? ==>
        && jobs == old(jobs)[j := old(jobs)[j].(status := Succeeded, finishedAt := Some(now), lockOwner := "",
                                                lockExpiresAt := None, errorSummary := "")]
        && ClosesCurrent(old(Contents()), Contents(), j, now, true, "")
    {
      hide Consistent, CloseNumbered, ClosesCurrent, Power2, Delay;
      var job := jobs[j];
      if job.status != Running || job.lockOwner != worker {
        return Err(LeaseLost);
      }
      MarksKeepConsistent(Contents(), j, now, "");
      MarkClosesCurrent(Contents(), j, now, "");
      job := job.(status := Succeeded, finishedAt := Some(now), lockOwner := "", lockExpiresAt := None, errorSummary := "");
      jobs := jobs[j := job];
      attempts := attempts[j := CloseNumbered(attempts[j], job.attemptCount, now, true, "")];
      return Ok(());
    }

    method MarkFailed(j: JobId, now: Time, worker: string, message: string) returns (r: Result<(), LeaseError>)
      requires Valid() && j in jobs
      modifies this
      ensures Valid()
      ensures r.Ok? <==> Owned(old(Contents()), j, worker)
      ensures Contents() == if r.Ok? then FailRows(old(Contents()), j, now, message) else old(Contents())
      ensures r.Ok? <==> old(jobs)[j].status == Running && old(jobs)[j].lockOwner == worker
      ensures r.Ok? ==>
        var was, retry := old(jobs)[j], old(jobs)[j].attemptCount < old(jobs)[j].maxAttempts;
        && jobs == old(jobs)[j := was.(status := if retry then RetryScheduled else Failed,
                                       runAfter := now + Delay(was.attemptCount),
                                       finishedAt := if retry then None else Some(now),
                                       lockOwner := "", lockExpiresAt := None,
                                       errorSummary := message[..Min(2000, |message|)])]
        && ClosesCurrent(old(Contents()), Contents(), j, now, false, message[..Min(10000, |message|)])
    {
      hide Consistent, CloseNumbered, ClosesCurrent, Power2, Delay;
      var job := jobs[j];
      if job.status != Running || job.lockOwner != worker {
        return Err(LeaseLost);
      }
      MarksKeepConsistent(Contents(), j, now, message);
      MarkClosesCurrent(Contents(), j, now, message);
      BackoffIsDelay(job.attemptCount);
      assert message[..|message|] == message;
      var retry := job.attemptCount < job.maxAttempts;
      job := job.(status := if retry then RetryScheduled else Failed);
      job := job.(runAfter := now + Min(300, Power2(job.attemptCount)));
      job := job.(finishedAt := if retry then None else Some(now), lockOwner := "", lockExpiresAt := None);
      job := job.(errorSummary := Truncate(message, 2000));
      assert job == FailedJob(jobs[j], now, message);
      jobs := jobs[j := job];
      attempts := attempts[j := CloseNumbered(attempts[j], job.attemptCount, now, false, Truncate(message, 10000))];
      return Ok(());
    }
  }
}
