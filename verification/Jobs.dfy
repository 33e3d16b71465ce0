/** Execution jobs as values: the lease state machine (internal/dispatch/job.go). */
module Jobs {
  import opened Prelude

  datatype JobStatus = Pending | Leased | Succeeded | Retryable | PermanentFailure | Cancelled

  const LEASE_NOT_OWNED := Fault(Conflict, "lease_not_owned")
  const LEASE_EXPIRED := Fault(Conflict, "lease_expired")
  const NOT_CLAIMABLE := Fault(Conflict, "job_not_claimable")

  datatype Job = Job(
    planId: Id, clusterId: Id, status: JobStatus, attempts: int, maxAttempts: int, nextAttemptAt: Instant,
    leaseOwner: string, leaseUntil: Option<Instant>, lastError: string, version: int)
  {
    predicate Claimable(now: Instant) {
      match status
      case Pending => nextAttemptAt <= now
      case Retryable => nextAttemptAt <= now
      case Leased => leaseUntil.Some? && leaseUntil.value <= now
      case _ => false
    }

    function Lease(owner: string, now: Instant, duration: nat): Result<Job> {
      if Blank(owner) then Err(Fault(Invalid, "lease_owner_required"))
      else if duration < SECOND || duration > 10 * MINUTE then Err(Fault(Invalid, "invalid_lease_duration"))
      else if !Claimable(now) then Err(NOT_CLAIMABLE)
      else Ok(this.(status := Leased, leaseOwner := Trim(owner), leaseUntil := Some(now + duration),
                    attempts := attempts + 1, version := version + 1))
    }

    function VerifyLease(owner: string, now: Instant): Option<Fault> {
      if !status.Leased? || leaseOwner != owner || leaseUntil.None? then Some(LEASE_NOT_OWNED)
      else if now > leaseUntil.value then Some(LEASE_EXPIRED)
      else None
    }

    function Succeed(owner: string, now: Instant): Result<Job> {
      var refused := VerifyLease(owner, now);
      if refused.Some? then Err(refused.value)
      else Ok(this.(status := Succeeded, leaseOwner := "", leaseUntil := None, lastError := "", version := version + 1))
    }

    function Fail(owner: string, cause: string, retryable: bool, now: Instant, baseBackoff: int): Result<Job> {
      var refused := VerifyLease(owner, now);
      if refused.Some? then Err(refused.value)
      else
        var released := this.(leaseOwner := "", leaseUntil := None, lastError := cause, version := version + 1);
        if retryable && attempts < maxAttempts
        then Ok(released.(status := Retryable, nextAttemptAt := now + Backoff(baseBackoff, attempts)))
        else Ok(released.(status := PermanentFailure))
    }

    predicate Terminal() { status.Succeeded? || status.PermanentFailure? || status.Cancelled? }
  }

  function NewJob(planId: Id, clusterId: Id, maxAttempts: int, now: Instant): Result<Job> {
    if Blank(planId) || Blank(clusterId) then Err(Fault(Invalid, "missing_job_owner"))
    else if maxAttempts < 1 || maxAttempts > 20 then Err(Fault(Invalid, "invalid_attempt_limit"))
    else Ok(Job(planId, clusterId, Pending, 0, maxAttempts, now, "", None, "", 1))
  }

  function Pow2(k: nat): nat { if k == 0 then 1 else 2 * Pow2(k - 1) }

  /** Exponential delay: doubled per attempt up to 256 times the base, at most a quarter of an hour. */
  function Backoff(base: int, attempt: int): (delay: nat)
    ensures 0 < delay <= 15 * MINUTE
    ensures 0 < base <= 15 * MINUTE ==> base <= delay
  {
    var unit := if base <= 0 then SECOND else base;
    var value := unit * Pow2(Shift(attempt));
    PowerGrows(unit, Shift(attempt));
    if value > 15 * MINUTE then 15 * MINUTE else value
  }

  lemma {:induction false} PowerGrows(unit: int, k: nat)
    requires unit > 0
    ensures unit * Pow2(k) >= unit
  {
    if k > 0 {
      PowerGrows(unit, k - 1);
      assert unit * Pow2(k) == 2 * (unit * Pow2(k - 1));
    }
  }

  /** The delay never shrinks from one attempt to the next. */
  lemma BackoffIsMonotone(base: int, attempt: int)
    ensures Backoff(base, attempt) <= Backoff(base, attempt + 1)
  {
    var unit := if base <= 0 then SECOND else base;
    if 1 <= attempt <= 8 {
      assert unit * Pow2(attempt) == 2 * (unit * Pow2(attempt - 1));
      PowerGrows(unit, attempt - 1);
    }
  }

  /** The delay as int64 nanoseconds, where the doubling wraps around. */
  function Backoff64(base: int, attempt: int): int {
    var unit := if base <= 0 then SECOND else base;
    var value := Wrap(unit * Pow2(Shift(attempt)));
    if value > 15 * MINUTE then 15 * MINUTE else value
  }

  function Shift(attempt: int): nat { if attempt < 1 then 0 else if attempt - 1 > 8 then 8 else attempt - 1 }

  const TWO_55: int := 0x80_0000_0000_0000

  lemma {:induction false} PowersGrow(unit: int, k: nat, n: nat)
    requires unit > 0 && k <= n
    ensures 0 < unit * Pow2(k) <= unit * Pow2(n)
    decreases n
  {
    PowerGrows(unit, k);
    if k < n {
      PowersGrow(unit, k, n - 1);
      assert unit * Pow2(n) == 2 * (unit * Pow2(n - 1));
    }
  }

  /** Doubling from below 2^63 to 2^63 or beyond passes through a product that wraps to a negative number. */
  lemma {:induction false} DoublingCrosses(unit: int, n: nat) returns (k: nat)
    requires 0 < unit < TWO_63 && unit * Pow2(n) >= TWO_63
    ensures k <= n && TWO_63 <= unit * Pow2(k) < TWO_64
  {
    assert n > 0 by { assert Pow2(0) == 1; }
    assert unit * Pow2(n) == 2 * (unit * Pow2(n - 1));
    if unit * Pow2(n - 1) >= TWO_63 {
      k := DoublingCrosses(unit, n - 1);
    } else {
      k := n;
    }
  }

  lemma EightDoublings(unit: int)
    ensures unit * Pow2(8) == 256 * unit
  {
    assert Pow2(4) == 16;
    assert Pow2(8) == 256;
  }

  /** Below 2^55 ns no doubling wraps. */
  lemma BackoffWithoutOverflow(base: int, attempt: int)
    requires base < TWO_55
    ensures Backoff64(base, attempt) == Backoff(base, attempt)
  {
    var unit := if base <= 0 then SECOND else base;
    PowersGrow(unit, Shift(attempt), 8);
    EightDoublings(unit);
    hide Pow2;
  }

  /** In int64 every delay is right if and only if the base is below 2^55 ns, some 417 days. */
  lemma BackoffIsExactIff(base: int)
    requires base < TWO_63
    ensures (forall attempt :: Backoff64(base, attempt) == Backoff(base, attempt)) <==> base < TWO_55
  {
    if base < TWO_55 {
      forall attempt ensures Backoff64(base, attempt) == Backoff(base, attempt) { BackoffWithoutOverflow(base, attempt); }
    } else {
      EightDoublings(base);
      var k := DoublingCrosses(base, 8);
      assert Shift(k + 1) == k;
      hide Pow2;
      assert Backoff64(base, k + 1) < 0;
    }
  }

  /** The delay starts at the base, a second for a base that is not positive, and doubles eight times, up to the quarter of an hour. */
  lemma BackoffDoubles(base: int, attempt: int)
    ensures var first := if base <= 0 then SECOND else base;
            attempt <= 1 ==> Backoff(base, attempt) == if first > 15 * MINUTE then 15 * MINUTE else first
    ensures 1 < attempt <= 9 ==> Backoff(base, attempt) == if 2 * Backoff(base, attempt - 1) > 15 * MINUTE then 15 * MINUTE else 2 * Backoff(base, attempt - 1)
    ensures attempt > 9 ==> Backoff(base, attempt) == Backoff(base, 9)
  {
    var unit := if base <= 0 then SECOND else base;
    if 1 < attempt <= 9 {
      assert unit * Pow2(attempt - 1) == 2 * (unit * Pow2(attempt - 2));
    }
  }

  // ----- The writes to a job row, column by column -----

  /** It is time for an attempt, or the last lease has run out. */
  predicate Ripe(job: Job, now: Instant) {
    || ((job.status.Pending? || job.status.Retryable?) && job.nextAttemptAt <= now)
    || (job.status.Leased? && job.leaseUntil.Some? && job.leaseUntil.value <= now)
  }

  predicate Leasable(job: Job, owner: string, now: Instant, duration: nat) {
    Ripe(job, now) && !Blank(owner) && SECOND <= duration <= 10 * MINUTE
  }

  /** Leased to the trimmed owner until exactly `until`, one attempt and one version later. */
  predicate LeasedTo(before: Job, after: Job, owner: string, until: Instant) {
    && after.status.Leased? && after.leaseOwner == Trim(owner) && after.leaseUntil == Some(until)
    && after.attempts == before.attempts + 1 && after.version == before.version + 1
    && SameOwnership(before, after) && after.nextAttemptAt == before.nextAttemptAt && after.lastError == before.lastError
  }

  predicate HoldsLease(job: Job, owner: string, now: Instant) {
    job.status.Leased? && job.leaseOwner == owner && job.leaseUntil.Some? && now <= job.leaseUntil.value
  }

  /** The lease is given back, in the next version; no attempt is counted. */
  predicate ReleasedFrom(before: Job, after: Job) {
    && after.leaseOwner == "" && after.leaseUntil.None?
    && after.attempts == before.attempts && after.version == before.version + 1 && SameOwnership(before, after)
  }

  predicate SucceededFrom(before: Job, after: Job) {
    ReleasedFrom(before, after) && after.status.Succeeded? && after.lastError == "" && after.nextAttemptAt == before.nextAttemptAt
  }

  /** To be tried again after the delay exactly if the failure may pass and an attempt is left; else failed for good. */
  predicate FailedFrom(before: Job, after: Job, cause: string, retryable: bool, now: Instant, base: int) {
    && ReleasedFrom(before, after) && after.lastError == cause
    && if retryable && before.attempts < before.maxAttempts
       then after.status.Retryable? && after.nextAttemptAt == now + Backoff(base, before.attempts)
       else after.status.PermanentFailure? && after.nextAttemptAt == before.nextAttemptAt
  }

  lemma LeaseIff(before: Job, after: Job, owner: string, now: Instant, duration: nat)
    ensures before.Lease(owner, now, duration) == Ok(after) <==> Leasable(before, owner, now, duration) && LeasedTo(before, after, owner, now + duration)
    ensures before.Lease(owner, now, duration).Ok? <==> Leasable(before, owner, now, duration)
  {
    hide Blank, Trim;
  }

  lemma VerifyIff(job: Job, owner: string, now: Instant)
    ensures job.VerifyLease(owner, now).None? <==> HoldsLease(job, owner, now)
  {
  }

  lemma SucceedIff(before: Job, after: Job, owner: string, now: Instant)
    ensures before.Succeed(owner, now) == Ok(after) <==> HoldsLease(before, owner, now) && SucceededFrom(before, after)
    ensures before.Succeed(owner, now).Ok? <==> HoldsLease(before, owner, now)
  {
  }

  lemma FailIff(before: Job, after: Job, owner: string, cause: string, retryable: bool, now: Instant, base: int)
    ensures before.Fail(owner, cause, retryable, now, base) == Ok(after)
            <==> HoldsLease(before, owner, now) && FailedFrom(before, after, cause, retryable, now, base)
    ensures before.Fail(owner, cause, retryable, now, base).Ok? <==> HoldsLease(before, owner, now)
  {
    hide Backoff;
  }

  /** A lease of a ripe job, or one of the two outcomes written by the lease's holder in time. */
  ghost predicate LegalJobWrite(before: Job, after: Job) {
    || (exists owner, now: Instant, duration: nat :: Leasable(before, owner, now, duration) && LeasedTo(before, after, owner, now + duration))
    || (exists owner, now: Instant :: HoldsLease(before, owner, now) && SucceededFrom(before, after))
    || (exists owner, cause, retryable, now: Instant, base :: HoldsLease(before, owner, now) && FailedFrom(before, after, cause, retryable, now, base))
  }

  /** What every stored job satisfies. */
  ghost predicate JobOk(job: Job) {
    && job.version >= 1 && job.attempts >= 0 && job.maxAttempts >= 1
    && !job.status.Cancelled?
    && (job.status.Leased? <==> job.leaseUntil.Some?)
    && (job.status.Leased? <==> job.leaseOwner != "")
    && (job.status.Pending? ==> job.attempts == 0)
    && (!job.status.Pending? ==> job.attempts >= 1)
    && (job.status.Retryable? ==> job.attempts < job.maxAttempts)
  }

  /** The shape of a legal write, status by status. */
  lemma LegalJobWriteShape(before: Job, after: Job)
    requires JobOk(before) && LegalJobWrite(before, after)
    ensures JobOk(after) && after.version == before.version + 1 && !before.Terminal()
    ensures after.planId == before.planId && after.clusterId == before.clusterId && after.maxAttempts == before.maxAttempts
    ensures after.status.Leased? ==> after.attempts == before.attempts + 1
    ensures !after.status.Leased? ==> before.status.Leased? && after.attempts == before.attempts
    ensures !after.status.Pending? && !after.status.Cancelled?
  {
    if owner, now: Instant, duration: nat :| Leasable(before, owner, now, duration) && LeasedTo(before, after, owner, now + duration) {
      LeaseShape(before, after, owner, now, duration);
    } else {
      assert before.status.Leased? && ReleasedFrom(before, after);
    }
  }

  lemma LeaseShape(before: Job, after: Job, owner: string, now: Instant, duration: nat)
    requires JobOk(before) && Leasable(before, owner, now, duration) && LeasedTo(before, after, owner, now + duration)
    ensures JobOk(after) && !before.Terminal()
  {
    hide Blank, Trim;
  }

  predicate SameOwnership(a: Job, b: Job) {
    a.planId == b.planId && a.clusterId == b.clusterId && a.maxAttempts == b.maxAttempts
  }

  // ----- One job over time -----

  /** The successive values of one row: inserted pending, then left alone or legally written at each step. */
  ghost predicate Lifeline(rows: seq<Job>) {
    && rows != []
    && JobOk(rows[0]) && rows[0].status.Pending? && rows[0].version == 1
    && forall i :: 0 < i < |rows| ==> rows[i] == rows[i - 1] || LegalJobWrite(rows[i - 1], rows[i])
  }

  predicate IsReclaim(before: Job, after: Job) {
    before.version != after.version && before.status.Leased? && after.status.Leased?
  }

  predicate IsRetryableFailure(before: Job, after: Job) { before.status.Leased? && after.status.Retryable? }

  function Reclaims(rows: seq<Job>): nat {
    if |rows| < 2 then 0
    else Reclaims(rows[..|rows| - 1]) + if IsReclaim(rows[|rows| - 2], rows[|rows| - 1]) then 1 else 0
  }

  function RetryableFailures(rows: seq<Job>): nat {
    if |rows| < 2 then 0
    else RetryableFailures(rows[..|rows| - 1]) + if IsRetryableFailure(rows[|rows| - 2], rows[|rows| - 1]) then 1 else 0
  }

  function Writes(rows: seq<Job>): nat {
    if |rows| < 2 then 0
    else Writes(rows[..|rows| - 1]) + if rows[|rows| - 2] != rows[|rows| - 1] then 1 else 0
  }

  function InHand(job: Job): nat {
    if job.status.Leased? || job.status.Succeeded? || job.status.PermanentFailure? then 1 else 0
  }

  /**
   * The accounting law, over every lifeline: each attempt is a retryable failure, a
   * reclaimed lease, or the attempt in hand; only reclaims take attempts past the limit;
   * the version counts the writes, and at most two writes go to each attempt.
   */
  lemma {:induction false} AttemptAccounting(rows: seq<Job>)
    requires Lifeline(rows)
    ensures var job := rows[|rows| - 1];
            && JobOk(job)
            && job.maxAttempts == rows[0].maxAttempts
            && job.attempts == RetryableFailures(rows) + Reclaims(rows) + InHand(job)
            && job.attempts <= job.maxAttempts + Reclaims(rows)
            && job.version == 1 + Writes(rows)
            && Writes(rows) + Reclaims(rows) + (if job.status.Leased? then 1 else 0) == 2 * job.attempts
  {
    var n := |rows| - 1;
    if n > 0 {
      AttemptAccounting(rows[..n]);
      if rows[n] != rows[n - 1] {
        LegalJobWriteShape(rows[n - 1], rows[n]);
      }
    }
  }

  lemma TerminalStays(before: Job, after: Job)
    requires JobOk(before) && before.Terminal() && (before == after || LegalJobWrite(before, after))
    ensures after == before
  {
    if before != after { LegalJobWriteShape(before, after); }
  }
}
