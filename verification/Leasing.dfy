/** The lease protocol between workers over whole runs: fencing, deadlines, attempts, termination. */
module Leasing {
  import opened Prelude
  import opened TimeEncoding
  import opened Jobs
  import opened Tables
  import opened Machine
  import opened Invariants
  import opened Preservation
  import opened Reachable
  import opened Refinement
  import Dispatches

  ghost function JobOf(db: Db, id: Id): Option<Job> { if id in db.jobs then Some(db.jobs[id]) else None }

  lemma ClaimRuns(h: History, c: Call)
    requires c.ClaimJobs?
    ensures Exec(h, c) == (if Selected(Last(h).jobs, c.now, c.limit, c.candidates)
                           then ClaimTx(Last(h), c.owner, c.candidates, c.now, c.duration) else Last(h))
  {
    hide Selected, ClaimTx;
  }

  // ----- Fencing -----

  /** A worker whose job row has changed since it took it (a reclaim, or any outcome) can write nothing. */
  lemma StaleWorkerChangesNothing(h: History, c: Call)
    requires IsHistory(h) && c.FinishJob? && c.at < |h| && c.jobId in h[c.at].jobs && c.jobId in Last(h).jobs
    requires h[c.at].jobs[c.jobId] != Last(h).jobs[c.jobId]
    ensures Exec(h, c) == Last(h)
  {
    hide IsHistory, HistoryInv, TryFinish, Exec, Try;
    HistoryIsSound(h);
    TryIs(h, c);
    if TryFinish(h, c).Some? {
      FinishMeetsHeldRow(h, c);
    }
  }

  /** Each version of a job row, so each lease generation, is written over at most once in a run. */
  lemma OneOutcomePerLease(h: History, i: nat, k: nat, id: Id)
    requires IsHistory(h) && i < k < |h| && id in h[i].jobs && id in h[i + 1].jobs && id in h[k].jobs
    requires h[i].jobs[id].version == h[k].jobs[id].version
    ensures h[i + 1].jobs[id] == h[i].jobs[id] == h[k].jobs[id]
  {
    hide *;
    JobVersionsNameRows(h, i, i + 1, id);
    JobVersionsNameRows(h, i + 1, k, id);
  }

  /**
   * A claim writes a job only if it is truly ripe, although the query compares times as
   * text, and leases it to the claimant for the whole duration.
   */
  lemma ClaimsAreTrulyClaimable(h: History, c: Call, id: Id)
    requires c.ClaimJobs? && JobOf(Exec(h, c), id) != JobOf(Last(h), id)
    ensures id in Last(h).jobs && id in c.candidates && Last(h).jobs[id].Claimable(c.now)
    ensures Leasable(Last(h).jobs[id], c.owner, c.now, c.duration)
    ensures id in Exec(h, c).jobs && LeasedTo(Last(h).jobs[id], Exec(h, c).jobs[id], c.owner, c.now + c.duration)
    ensures var leased := Last(h).jobs[id].Lease(c.owner, c.now, c.duration); leased.Ok? && JobOf(Exec(h, c), id) == Some(leased.value)
  {
    hide Exec, Selected, Job.Lease, Leasable, LeasedTo, Job.Claimable;
    ClaimRuns(h, c);
    LeaseTakesClaimable(Last(h).jobs[id], c.owner, c.now, c.duration);
    LeaseIff(Last(h).jobs[id], Exec(h, c).jobs[id], c.owner, c.now, c.duration);
  }

  lemma LeaseTakesClaimable(job: Job, owner: string, now: Instant, duration: nat)
    requires job.Lease(owner, now, duration).Ok?
    ensures job.Claimable(now)
  {
  }

  /** On comparable times the text filter of the claim query is the domain's rule. */
  lemma DueIsClaimable(job: Job, now: Instant)
    requires FourDigitYear(now)
    requires job.status.Leased? ==> job.leaseUntil.Some? && FourDigitYear(job.leaseUntil.value) && Comparable(now, job.leaseUntil.value)
    requires !job.status.Leased? ==> FourDigitYear(job.nextAttemptAt) && Comparable(now, job.nextAttemptAt)
    ensures IsDue(job, now) <==> job.Claimable(now)
  {
    if job.status.Leased? {
      ComparableOrder(now, job.leaseUntil.value);
    } else {
      ComparableOrder(now, job.nextAttemptAt);
    }
    hide SqlLess, Comparable, FourDigitYear;
  }

  // ----- The instant at which a lease ends -----

  /** At that instant the holder may still finish, and anyone may already reclaim. */
  lemma BothPassAtTheDeadline(job: Job, now: Instant)
    requires job.status.Leased? && job.leaseUntil == Some(now)
    ensures job.VerifyLease(job.leaseOwner, now).None? && job.Claimable(now)
  {
  }

  lemma FinishedIsNotClaimable(job: Job, owner: string, execution: Execution, now: Instant, after: Job)
    requires Finished(job, owner, execution, now) == Ok(after)
    ensures !after.Claimable(now)
  {
  }

  lemma FinishLeavesUnclaimable(h: History, c: Call)
    requires HistoryInv(h) && c.FinishJob? && TryFinish(h, c).Some?
    ensures c.jobId in Exec(h, c).jobs && !Exec(h, c).jobs[c.jobId].Claimable(c.now)
  {
    FinishMeetsHeldRow(h, c);
    TryIs(h, c);
    hide HistoryInv, Try, TryFinish, Exec, Finished;
    var row := Last(h).jobs[c.jobId];
    FinishedIsNotClaimable(row, c.owner, c.execution, c.now, Finished(row, c.owner, c.execution, c.now).value);
  }

  /** If the holder finishes first, no claim at the same instant touches the job. */
  lemma FinishBeforeClaim(h: History, finish: Call, claim: Call)
    requires IsHistory(h) && finish.FinishJob? && claim.ClaimJobs? && claim.now == finish.now && TryFinish(h, finish).Some?
    ensures JobOf(Exec(Extend(h, finish), claim), finish.jobId) == JobOf(Exec(h, finish), finish.jobId)
  {
    hide IsHistory, HistoryInv, Exec, TryFinish;
    HistoryIsSound(h);
    FinishLeavesUnclaimable(h, finish);
    if JobOf(Exec(Extend(h, finish), claim), finish.jobId) != JobOf(Exec(h, finish), finish.jobId) {
      ClaimsAreTrulyClaimable(Extend(h, finish), claim, finish.jobId);
    }
  }

  /** If a claim takes the job first, the former holder's write does nothing. */
  lemma ClaimBeforeFinish(h: History, finish: Call, claim: Call)
    requires IsHistory(h) && finish.FinishJob? && claim.ClaimJobs? && finish.at < |h| && finish.jobId in h[finish.at].jobs
    requires JobOf(Exec(h, claim), finish.jobId) != JobOf(Last(h), finish.jobId)
    ensures Exec(Extend(h, claim), finish) == Exec(h, claim)
  {
    hide IsHistory, Exec, TryFinish, HistoryInv, Job.Claimable, Job.Lease;
    var (all, id) := (Extend(h, claim), finish.jobId);
    ClaimsAreTrulyClaimable(h, claim, id);
    ExtendIsHistory(h, claim);
    JobVersionsNameRows(all, finish.at, |h| - 1, id);
    JobVersionsNameRows(all, |h| - 1, |h|, id);
    StaleWorkerChangesNothing(all, finish);
  }

  // ----- The life of one job in a run -----

  /** The successive values of a job row over a history, from the state in which it appears. */
  ghost function Life(states: seq<Db>, id: Id): seq<Job> {
    if states == [] then []
    else
      var n := |states| - 1;
      Life(states[..n], id) + if id in states[n].jobs then [states[n].jobs[id]] else []
  }

  lemma LifelineExtends(rows: seq<Job>, row: Job)
    requires Lifeline(rows) && (row == rows[|rows| - 1] || LegalJobWrite(rows[|rows| - 1], row))
    ensures Lifeline(rows + [row])
  {
    hide LegalJobWrite, JobOk;
  }

  lemma LifelineStarts(row: Job)
    requires JobOk(row) && row.status.Pending? && row.version == 1
    ensures Lifeline([row])
  {
  }

  /** What one step does to one job row. */
  lemma JobStep(h: History, k: nat, id: Id)
    requires IsHistory(h) && k + 1 < |h|
    ensures id in h[k].jobs ==> id in h[k + 1].jobs && (h[k + 1].jobs[id] == h[k].jobs[id] || LegalJobWrite(h[k].jobs[id], h[k + 1].jobs[id]))
    ensures id in h[k + 1].jobs && id !in h[k].jobs ==>
              JobOk(h[k + 1].jobs[id]) && h[k + 1].jobs[id].status.Pending? && h[k + 1].jobs[id].version == 1
  {
    hide *;
    StepAt(h, k);
    StepParts(h[k], h[k + 1]);
    JobRowStep(h[k].jobs, h[k + 1].jobs, id);
  }

  lemma JobRowStep(a: map<Id, Job>, b: map<Id, Job>, id: Id)
    requires JobsStep(a, b)
    ensures id in a ==> id in b && (b[id] == a[id] || LegalJobWrite(a[id], b[id]))
    ensures id in b && id !in a ==> JobOk(b[id]) && b[id].status.Pending? && b[id].version == 1
  {
  }

  /** A job row lives as the domain says: inserted pending, then only legal writes, one after another. */
  lemma {:induction false} LifeIsLifeline(h: History, id: Id)
    requires IsHistory(h)
    ensures var (jobs, rows) := (Last(h).jobs, Life(h, id));
            if id in jobs then Lifeline(rows) && rows[|rows| - 1] == jobs[id] else rows == []
  {
    var n := |h| - 1;
    hide Lifeline, LegalJobWrite, JobOk, Exec;
    if n == 0 {
      assert h[..0] == [] && Life(h[..0], id) == [] && id !in h[0].jobs;
    } else {
      HistoryPrefix(h, n);
      hide IsHistory;
      LifeIsLifeline(h[..n], id);
      JobStep(h, n - 1, id);
      if id in h[n - 1].jobs {
        LifelineExtends(Life(h[..n], id), h[n].jobs[id]);
      } else if id in h[n].jobs {
        LifelineStarts(h[n].jobs[id]);
        assert Life(h, id) == [h[n].jobs[id]];
      }
    }
  }

  /**
   * Attempts over any run: every attempt is a retryable failure, a reclaimed lease or the
   * attempt in hand; attempts pass the limit only by reclaims; a retryable job is below it.
   */
  lemma AttemptsAreAccountedFor(h: History, id: Id)
    requires IsHistory(h) && id in Last(h).jobs
    ensures var (job, rows) := (Last(h).jobs[id], Life(h, id));
            && job.attempts == RetryableFailures(rows) + Reclaims(rows) + InHand(job)
            && job.attempts <= job.maxAttempts + Reclaims(rows)
            && (job.status.Retryable? ==> job.attempts < job.maxAttempts)
            && job.version == 1 + Writes(rows)
            && (Reclaims(rows) == 0 ==> Writes(rows) <= 2 * job.maxAttempts)
  {
    hide IsHistory;
    LifeIsLifeline(h, id);
    hide Life, Lifeline;
    AttemptAccounting(Life(h, id));
  }

  /** A job that succeeded or failed for good is never written again. */
  lemma {:induction false} TerminalJobsStay(h: History, i: nat, k: nat, id: Id)
    requires IsHistory(h) && i <= k < |h| && id in h[i].jobs && h[i].jobs[id].Terminal()
    ensures id in h[k].jobs && h[k].jobs[id] == h[i].jobs[id]
    decreases k
  {
    hide *;
    if i < k {
      TerminalJobsStay(h, i, k - 1, id);
      StateIsSound(h, k - 1);
      StepAt(h, k - 1);
      TerminalStep(h[k - 1], h[k], id);
    }
  }

  lemma TerminalStep(a: Db, b: Db, id: Id)
    requires Inv(a) && GoodStep(a, b) && id in a.jobs && a.jobs[id].Terminal()
    ensures id in b.jobs && b.jobs[id] == a.jobs[id]
  {
    hide Inv, GoodStep, LegalJobWrite;
    Parts(a);
    StepParts(a, b);
    JobRowStep(a.jobs, b.jobs, id);
    JobIsOk(a.jobs, id);
    TerminalStays(a.jobs[id], b.jobs[id]);
  }

  lemma JobIsOk(jobs: map<Id, Job>, id: Id)
    requires JobsOk(jobs) && id in jobs
    ensures JobOk(jobs[id])
  {
  }

  /** A lease that is still running keeps everybody else out: only its holder can write the row. */
  lemma RunningLeaseIsExclusive(h: History, c: Call, id: Id)
    requires IsHistory(h) && id in Last(h).jobs && Last(h).jobs[id].status.Leased?
    requires JobOf(Exec(h, c), id) != JobOf(Last(h), id)
    ensures var job := Last(h).jobs[id];
            || (c.FinishJob? && c.jobId == id && c.owner == job.leaseOwner && job.leaseUntil.Some? && c.now <= job.leaseUntil.value)
            || (c.ClaimJobs? && id in c.candidates && job.leaseUntil.Some? && job.leaseUntil.value <= c.now)
  {
    hide IsHistory, HistoryInv, Exec;
    HistoryIsSound(h);
    if c.ClaimJobs? {
      ClaimsAreTrulyClaimable(h, c, id);
    } else {
      OnlyJobCallsWriteJobs(h, c, id);
    }
  }

  /**
   * A lease lasts as long as its claim asked for: until the row changes, it can be written
   * only by its holder up to `now + duration`, or be claimed from then on, with both
   * taken from the claiming call.
   */
  lemma LeaseLasts(h: History, i: nat, claim: Call, c: Call, id: Id)
    requires IsHistory(h) && i + 1 < |h| && claim.ClaimJobs? && h[i + 1] == Exec(h[..i + 1], claim)
    requires JobOf(h[i + 1], id) != JobOf(h[i], id) && JobOf(Last(h), id) == JobOf(h[i + 1], id)
    requires JobOf(Exec(h, c), id) != JobOf(Last(h), id)
    ensures || (c.FinishJob? && c.jobId == id && c.owner == Trim(claim.owner) && c.now <= claim.now + claim.duration)
            || (c.ClaimJobs? && id in c.candidates && claim.now + claim.duration <= c.now)
  {
    hide IsHistory, Exec, Trim;
    assert Last(h[..i + 1]) == h[i];
    ClaimsAreTrulyClaimable(h[..i + 1], claim, id);
    RunningLeaseIsExclusive(h, c, id);
  }

  // ----- Outcomes -----

  /**
   * The outcome that was written is the execution's: success, failure for good exactly if
   * the failure is not retryable or no attempt is left, and otherwise a retry after the
   * delay for the attempts so far; a failure leaves its cause.
   */
  ghost predicate OutcomeStored(a: Db, b: Db, c: Call)
    requires c.FinishJob?
  {
    && c.jobId in a.jobs && c.jobId in b.jobs && b == a.(jobs := a.jobs[c.jobId := b.jobs[c.jobId]])
    && var (before, after) := (a.jobs[c.jobId], b.jobs[c.jobId]);
       && HoldsLease(before, c.owner, c.now) && ReleasedFrom(before, after)
       && (after.status.Succeeded? <==> c.execution.Done?)
       && (after.status.PermanentFailure? <==> c.execution.Failed? && (!c.execution.retryable || before.attempts >= before.maxAttempts))
       && (after.status.Retryable? <==> c.execution.Failed? && c.execution.retryable && before.attempts < before.maxAttempts)
       && after.lastError == (if c.execution.Failed? then c.execution.cause else "")
       && after.nextAttemptAt == if after.status.Retryable? then c.now + Backoff(SECOND, before.attempts) else before.nextAttemptAt
  }

  /** Every committed outcome is stored as the execution reported it, on the very row the worker held. */
  lemma OutcomesAreStored(h: History, c: Call)
    requires IsHistory(h) && c.FinishJob? && TryFinish(h, c).Some?
    ensures OutcomeStored(Last(h), Exec(h, c), c) && h[c.at].jobs[c.jobId] == Last(h).jobs[c.jobId]
  {
    hide IsHistory, HistoryInv, TryFinish, Finished, Exec, Try, OutcomeStored;
    HistoryIsSound(h);
    FinishMeetsHeldRow(h, c);
    TryIs(h, c);
    OutcomeOf(Last(h), Exec(h, c), c);
  }

  lemma OutcomeOf(a: Db, b: Db, c: Call)
    requires c.FinishJob? && c.jobId in a.jobs && Finished(a.jobs[c.jobId], c.owner, c.execution, c.now).Ok?
    requires b == a.(jobs := a.jobs[c.jobId := Finished(a.jobs[c.jobId], c.owner, c.execution, c.now).value])
    ensures OutcomeStored(a, b, c)
  {
    hide Job.Succeed, Job.Fail, Backoff, HoldsLease;
    var (before, after) := (a.jobs[c.jobId], b.jobs[c.jobId]);
    match c.execution {
      case Done => SucceedIff(before, after, c.owner, c.now);
      case Failed(cause, retryable) => FailIff(before, after, c.owner, cause, retryable, c.now, SECOND);
    }
  }

  /** After a success, a failure that is not retryable, or the last allowed attempt, no later state changes the row. */
  lemma FinalOutcomesStay(h: History, i: nat, k: nat, c: Call)
    requires IsHistory(h) && i + 1 <= k < |h| && c.FinishJob? && TryFinish(h[..i + 1], c).Some? && h[i + 1] == Exec(h[..i + 1], c)
    requires c.jobId in h[i].jobs
    requires c.execution.Done? || !c.execution.retryable || h[i].jobs[c.jobId].attempts >= h[i].jobs[c.jobId].maxAttempts
    ensures c.jobId in h[k].jobs && h[k].jobs[c.jobId] == h[i + 1].jobs[c.jobId]
  {
    hide IsHistory, TryFinish, Exec, HoldsLease, ReleasedFrom, Backoff;
    HistoryPrefix(h, i + 1);
    assert Last(h[..i + 1]) == h[i];
    OutcomesAreStored(h[..i + 1], c);
    TerminalJobsStay(h, i + 1, k, c.jobId);
  }

  lemma OnlyJobCallsWriteJobs(h: History, c: Call, id: Id)
    requires HistoryInv(h) && !c.ClaimJobs? && id in Last(h).jobs && JobOf(Exec(h, c), id) != JobOf(Last(h), id)
    ensures c.FinishJob? && c.jobId == id && Last(h).jobs[id].VerifyLease(c.owner, c.now).None?
  {
    if c.DispatchPlan? {
      TryIs(h, c);
      hide *;
      DispatchKeepsOldJobs(h, c, id);
    } else if c.FinishJob? {
      TryIs(h, c);
      hide HistoryInv, Try, TryFinish, Exec, Finished;
      FinishMeetsHeldRow(h, c);
      FinisherHoldsLease(Last(h).jobs[c.jobId], c.owner, c.execution, c.now);
    } else {
      OtherCallsLeaveJobs(h, c);
      hide Exec;
    }
  }

  lemma FinisherHoldsLease(job: Job, owner: string, execution: Execution, now: Instant)
    requires Finished(job, owner, execution, now).Ok?
    ensures job.VerifyLease(owner, now).None?
  {
  }

  lemma DispatchKeepsOldJobs(h: History, c: Call, id: Id)
    requires HistoryInv(h) && c.DispatchPlan? && id in Last(h).jobs
    ensures JobOf(Exec(h, c), id) == JobOf(Last(h), id)
  {
    TryIs(h, c);
    hide HistoryInv, Try, TryDispatch, Exec;
    if TryDispatch(h, c).Some? {
      DispatchesOnlyAdd(h, c, id);
    }
  }

  lemma DispatchesOnlyAdd(h: History, c: Call, id: Id)
    requires HistoryInv(h) && c.DispatchPlan? && TryDispatch(h, c).Some? && id in Last(h).jobs
    ensures id in TryDispatch(h, c).value.jobs && TryDispatch(h, c).value.jobs[id] == Last(h).jobs[id]
  {
    Dispatches.DispatchWrites(h, c);
    hide HistoryInv, TryDispatch, JobRows, Zip, Lists;
  }

  lemma OtherCallsLeaveJobs(h: History, c: Call)
    requires !c.ClaimJobs? && !c.FinishJob? && !c.DispatchPlan?
    ensures Exec(h, c).jobs == Last(h).jobs
  {
    hide Requested, Prepare, CanSubmit, RaiseAlarms, CanStore, Zip, TakeClusters;
  }

}
