/**
 When a job may be claimed: a failed attempt waits out its delay, a lease holds until it
 expires, and the first job of the queue goes first.  All over runs of the worker protocol,
 and all read off the columns of the rows.
 */
module JobTiming {
  import opened Basics
  import opened JobServices
  import opened WorkerProtocol

  predicate Takes(e: Event, j: JobId) {
    e.Claim? && e.got == Some(j)
  }

  // -------------------------------------------------------------------- retries

  lemma WaitingStays(s: System, e: Event, t: System, j: JobId)
    requires Next(s, e, t) && j in s.rows.jobs && s.rows.jobs[j].status == RetryScheduled && !Takes(e, j)
    ensures j in t.rows.jobs && t.rows.jobs[j] == s.rows.jobs[j]
  {
    hide CloseNumbered, Precedes, NoneEligible;
  }

  // The job row a failing mark leaves.
  lemma FailureSchedules(s: System, w: string, t: System)
    requires Inv(s) && Next(s, Mark(w), t)
    requires var me := LocalOf(s, w); me.phase.Failing? && Owned(s.rows, me.job, w) && me.attempt < s.rows.jobs[me.job].maxAttempts
    ensures var me := LocalOf(s, w);
      && me.job in t.rows.jobs && t.rows.jobs[me.job].status == RetryScheduled
      && t.rows.jobs[me.job].attemptCount == me.attempt
      && t.rows.jobs[me.job].runAfter == s.now + Delay(me.attempt)
  {
    hide Consistent, CloseNumbered, Power2, Backoff, Delay;
    var me := LocalOf(s, w);
    assert Sound(s.rows, me, w);
    BackoffIsDelay(me.attempt);
  }

  // What a claim at this state takes or leaves, said of the columns the query orders by.
  lemma ClaimTakesTheFirst(s: System, e: Event, t: System, j: JobId)
    requires Next(s, e, t) && e.Claim?
    requires j in s.rows.jobs && s.rows.jobs[j].status == RetryScheduled
    ensures e.got == Some(j) ==> s.rows.jobs[j].runAfter <= s.now
    ensures s.rows.jobs[j].runAfter <= s.now ==> e.got.Some? && e.got.value in s.rows.jobs
    ensures s.rows.jobs[j].runAfter <= s.now ==>
      var first, mine := s.rows.jobs[e.got.value], s.rows.jobs[j];
      && first.priority >= mine.priority
      && (first.priority == mine.priority ==> first.runAfter <= mine.runAfter)
      && (first.priority == mine.priority && first.runAfter == mine.runAfter ==> first.createdAt <= mine.createdAt)
  {
    var jobs := AfterRecovery(s).jobs;
    assert jobs[j] == s.rows.jobs[j];
    if s.rows.jobs[j].runAfter <= s.now {
      assert Eligible(jobs[j], s.now);
      assert e.got.Some? && IsNext(jobs, s.now, e.got.value);
    }
  }

  /**
   A failed attempt k of a job with attempts left, marked at instant n, waits until n + min(300, 2^k):
   until some claim gets the job its row says so, no claim gets it earlier, and from that instant on
   every claim gets this job or one that goes before it by priority, run_after and created_at.
   */
  lemma {:induction false} RetryWaitsItsDelay(ss: seq<System>, es: seq<Event>, i: nat, m: nat, w: string)
    requires IsRun(ss, es) && i < m < |ss| && es[i] == Mark(w)
    requires var me := LocalOf(ss[i], w);
      && me.Working? && me.phase.Failing? && me.job in ss[i].rows.jobs
      && (var job := ss[i].rows.jobs[me.job]; job.status == Running && job.lockOwner == w && me.attempt < job.maxAttempts)
      && forall q :: i < q < m ==> !Takes(es[q], me.job)
    ensures var me := LocalOf(ss[i], w);
      && me.job in ss[m].rows.jobs
      && (var job, due := ss[m].rows.jobs[me.job], ss[i].now + Delay(me.attempt);
          && job.status == RetryScheduled && job.attemptCount == me.attempt && job.runAfter == due
          && (m < |es| && es[m].Claim? ==>
                && (es[m].got == Some(me.job) ==> due <= ss[m].now)
                && (due <= ss[m].now ==>
                      && es[m].got.Some? && es[m].got.value in ss[m].rows.jobs
                      && (var first := ss[m].rows.jobs[es[m].got.value];
                          && first.priority >= job.priority
                          && (first.priority == job.priority ==> first.runAfter <= due)
                          && (first.priority == job.priority && first.runAfter == due ==> first.createdAt <= job.createdAt)))))
    decreases m
  {
    hide Next, Inv, Init, Delay;
    var me := LocalOf(ss[i], w);
    if m == i + 1 {
      RunKeepsInv(ss, es, i);
      FailureSchedules(ss[i], w, ss[m]);
    } else {
      RetryWaitsItsDelay(ss, es, i, m - 1, w);
      WaitingStays(ss[m - 1], es[m - 1], ss[m], me.job);
    }
    if m < |es| && es[m].Claim? {
      ClaimTakesTheFirst(ss[m], es[m], ss[m + 1], me.job);
    }
  }

  // --------------------------------------------------------------------- leases

  // Step i gives w the job j, or renews its lease on it, for the given number of seconds.
  ghost predicate Leases(s: System, e: Event, w: string, j: JobId, seconds: int) {
    || e == Claim(w, seconds, Some(j))
    || (e == Heartbeat(w, seconds) && LocalOf(s, w).Working? && LocalOf(s, w).job == j && Owned(s.rows, j, w))
    || (e == StrayHeartbeat(w, j, seconds) && Owned(s.rows, j, w))
  }

  // Neither marks the job nor renews the lease of w, nor claims after the instant due.
  ghost predicate Leaves(s: System, e: Event, w: string, due: Time) {
    && e != Mark(w)
    && !(e.Heartbeat? && e.worker == w) && !(e.StrayHeartbeat? && e.worker == w)
    && !(e.Claim? && due < s.now)
  }

  ghost predicate Held(rows: Rows, j: JobId, w: string, due: Time) {
    j in rows.jobs && rows.jobs[j].status == Running && rows.jobs[j].lockOwner == w && rows.jobs[j].lockExpiresAt == Some(due)
  }

  lemma LeaseStarts(s: System, e: Event, t: System, w: string, j: JobId, seconds: int)
    requires Next(s, e, t) && Leases(s, e, w, j, seconds)
    ensures Held(t.rows, j, w, s.now + seconds)
  {
    hide Precedes, NoneEligible;
  }

  lemma LeaseStays(s: System, e: Event, t: System, w: string, j: JobId, due: Time)
    requires Next(s, e, t) && Held(s.rows, j, w, due) && Leaves(s, e, w, due)
    ensures Held(t.rows, j, w, due) && t.rows.jobs[j] == s.rows.jobs[j]
  {
    hide Precedes, NoneEligible, CloseNumbered;
  }

  lemma LeaseEnds(s: System, e: Event, t: System, w: string, j: JobId, due: Time)
    requires Next(s, e, t) && Held(s.rows, j, w, due) && e.Claim? && due < s.now
    ensures j in t.rows.jobs
    ensures if e.got == Some(j) then t.rows.jobs[j].lockOwner == e.worker && t.rows.jobs[j].attemptCount == s.rows.jobs[j].attemptCount + 1
            else t.rows.jobs[j] == s.rows.jobs[j].(status := RetryScheduled, lockOwner := "", lockExpiresAt := None)
  {
    hide Precedes, NoneEligible;
  }

  /**
   A lease given or renewed at instant n for s seconds holds through instant n + s: until its worker marks
   or renews, no claim up to then touches the job, and the first claim after it takes the job from the worker.
   */
  lemma {:induction false} LeaseHoldsUntilItExpires(ss: seq<System>, es: seq<Event>, i: nat, m: nat, w: string, j: JobId, seconds: int)
    requires IsRun(ss, es) && i < m < |ss| && Leases(ss[i], es[i], w, j, seconds)
    requires forall q :: i < q < m ==> Leaves(ss[q], es[q], w, ss[i].now + seconds)
    ensures Held(ss[m].rows, j, w, ss[i].now + seconds)
    ensures m < |es| && es[m].Claim? && ss[m].now <= ss[i].now + seconds ==>
      es[m].got != Some(j) && j in ss[m + 1].rows.jobs && ss[m + 1].rows.jobs[j] == ss[m].rows.jobs[j]
    ensures m < |es| && es[m].Claim? && ss[m].now > ss[i].now + seconds ==>
      && j in ss[m + 1].rows.jobs
      && (var before, after := ss[m].rows.jobs[j], ss[m + 1].rows.jobs[j];
          if es[m].got == Some(j) then after.lockOwner == es[m].worker && after.attemptCount == before.attemptCount + 1
          else after == before.(status := RetryScheduled, lockOwner := "", lockExpiresAt := None))
    decreases m
  {
    hide Next, Init, Leases;
    var due := ss[i].now + seconds;
    if m == i + 1 {
      LeaseStarts(ss[i], es[i], ss[m], w, j, seconds);
    } else {
      LeaseHoldsUntilItExpires(ss, es, i, m - 1, w, j, seconds);
      LeaseStays(ss[m - 1], es[m - 1], ss[m], w, j, due);
    }
    if m < |es| && es[m].Claim? {
      if ss[m].now <= due {
        LeaseStays(ss[m], es[m], ss[m + 1], w, j, due);
        if Takes(es[m], j) {
          ClaimedIsLeased(ss[m], es[m], ss[m + 1], j);
          assert false;
        }
      } else {
        LeaseEnds(ss[m], es[m], ss[m + 1], w, j, due);
      }
    }
  }

  // A claim changes the row it takes.
  lemma ClaimedIsLeased(s: System, e: Event, t: System, j: JobId)
    requires Next(s, e, t) && Takes(e, j)
    ensures j in s.rows.jobs && j in t.rows.jobs && t.rows.jobs[j].attemptCount == s.rows.jobs[j].attemptCount + 1
  {
    hide Precedes, NoneEligible;
  }
}
