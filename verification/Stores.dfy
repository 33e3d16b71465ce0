/**
 * The transactions of the SQLite store as the source runs them: statement by statement
 * on a working copy that becomes the database only if every statement succeeded
 * (internal/storage/sqlite/dispatch.go, site.go, operations.go).
 */
module Stores {
  import opened Prelude
  import opened TimeEncoding
  import opened Clock
  import opened Sites
  import opened Plans
  import opened Jobs
  import opened Telemetry
  import opened Tables
  import opened Batches

  class Store {
    var db: Db

    constructor ()
      ensures db == EMPTY
    {
      db := EMPTY;
    }

    method InsertPlan(id: Id, plan: Plan) returns (outcome: Option<Fault>)
      modifies this
      ensures db == Commit(old(db), InsertPlanTx(old(db), id, plan))
      ensures outcome.Some? ==> db == old(db)
      ensures outcome.None? ==> id !in old(db).plans && db == old(db).(plans := old(db).plans[id := plan])
      ensures outcome == Some(CONSTRAINT) <==> id in old(db).plans
      ensures outcome == Some(RELATION_MISSING) <==> id !in old(db).plans && plan.siteId !in old(db).sites
      ensures outcome == Some(WRITE_FAILED) <==>
                && id !in old(db).plans && plan.siteId in old(db).sites
                && (plan.requestedKW <= 0 || plan.targetKWh <= 0 || !SqlLess(plan.window.start, plan.window.end))
      ensures outcome.None? <==> InsertPlanTx(old(db), id, plan).Some?
    {
      if id in db.plans {
        return Some(CONSTRAINT);
      }
      if plan.siteId !in db.sites {
        return Some(RELATION_MISSING);
      }
      if plan.requestedKW <= 0 || plan.targetKWh <= 0 || !SqlLess(plan.window.start, plan.window.end) {
        return Some(WRITE_FAILED);
      }
      db := db.(plans := db.plans[id := plan]);
      outcome := None;
    }

    /** Status, approval and version are written; everything else about the plan, and every other row, stays. */
    method UpdatePlan(id: Id, plan: Plan, expected: int) returns (outcome: Option<Fault>)
      modifies this
      ensures db == Commit(old(db), UpdatePlanTx(old(db), id, plan, expected))
      ensures outcome.None? <==> UpdatePlanTx(old(db), id, plan, expected).Some?
      ensures outcome.None? <==> id in old(db).plans && old(db).plans[id].version == expected
      ensures outcome.Some? ==> outcome.value == VERSION_CONFLICT && db == old(db)
      ensures outcome.None? ==>
                && id in db.plans && SamePlan(db.plans[id], old(db).plans[id])
                && db.plans[id].status == plan.status && db.plans[id].version == plan.version
                && db.plans[id].approvedBy == plan.approvedBy && db.plans[id].approvedAt == plan.approvedAt
                && db == old(db).(plans := old(db).plans[id := db.plans[id]])
    {
      if id !in db.plans || db.plans[id].version != expected {
        return Some(VERSION_CONFLICT);
      }
      var row := db.plans[id];
      row := row.(status := plan.status);
      row := row.(approvedBy := plan.approvedBy, approvedAt := plan.approvedAt);
      row := row.(version := plan.version);
      db := db.(plans := db.plans[id := row]);
      outcome := None;
    }

    /** The whole site row is written, if the version is unchanged and the CHECKs hold. */
    method UpdateSite(id: Id, site: Site, expected: int) returns (outcome: Option<Fault>)
      modifies this
      ensures db == Commit(old(db), UpdateSiteTx(old(db), id, site, expected))
      ensures outcome.None? <==> UpdateSiteTx(old(db), id, site, expected).Some?
      ensures outcome == Some(VERSION_CONFLICT) <==> id !in old(db).sites || old(db).sites[id].version != expected
      ensures outcome == Some(WRITE_FAILED) <==>
                && id in old(db).sites && old(db).sites[id].version == expected
                && (site.gridLimitKW <= 0 || site.reservedKW < 0 || site.reservedKW > site.gridLimitKW)
      ensures outcome.Some? ==> db == old(db) && (outcome.value == VERSION_CONFLICT || outcome.value == WRITE_FAILED)
      ensures outcome.None? ==> db == old(db).(sites := old(db).sites[id := site])
    {
      if id !in db.sites || db.sites[id].version != expected {
        return Some(VERSION_CONFLICT);
      }
      if site.gridLimitKW <= 0 || site.reservedKW < 0 || site.reservedKW > site.gridLimitKW {
        return Some(WRITE_FAILED);
      }
      db := db.(sites := db.sites[id := site]);
      outcome := None;
    }

    method InsertSite(id: Id, site: Site) returns (outcome: Option<Fault>)
      modifies this
      ensures db == Commit(old(db), InsertSiteTx(old(db), id, site))
      ensures outcome == Some(CONSTRAINT) <==> id in old(db).sites
      ensures outcome.None? <==>
                && id !in old(db).sites && site.gridLimitKW > 0 && 0 <= site.reservedKW <= site.gridLimitKW
      ensures outcome.Some? ==> db == old(db)
      ensures outcome.None? ==> db == old(db).(sites := old(db).sites[id := site])
    {
      if id in db.sites {
        return Some(CONSTRAINT);
      }
      if site.gridLimitKW <= 0 || site.reservedKW < 0 || site.reservedKW > site.gridLimitKW {
        return Some(WRITE_FAILED);
      }
      db := db.(sites := db.sites[id := site]);
      outcome := None;
    }

    method InsertCluster(id: Id, cluster: Cluster) returns (outcome: Option<Fault>)
      modifies this
      ensures db == Commit(old(db), InsertClusterTx(old(db), id, cluster))
      ensures outcome == Some(CONSTRAINT) <==> id in old(db).clusters
      ensures outcome == Some(RELATION_MISSING) <==> id !in old(db).clusters && cluster.siteId !in old(db).sites
      ensures outcome.Some? ==> db == old(db) && (outcome.value == CONSTRAINT || outcome.value == RELATION_MISSING)
      ensures outcome.None? ==> db == old(db).(clusters := old(db).clusters[id := cluster])
    {
      if id in db.clusters {
        return Some(CONSTRAINT);
      }
      if cluster.siteId !in db.sites {
        return Some(RELATION_MISSING);
      }
      db := db.(clusters := db.clusters[id := cluster]);
      outcome := None;
    }

    /** State of charge, status, telemetry columns and version are written; site and ratings stay, and every other row. */
    method UpdateCluster(id: Id, cluster: Cluster, expected: int) returns (outcome: Option<Fault>)
      modifies this
      ensures db == Commit(old(db), UpdateClusterTx(old(db), id, cluster, expected))
      ensures outcome.None? <==> UpdateClusterTx(old(db), id, cluster, expected).Some?
      ensures outcome == Some(VERSION_CONFLICT) <==> id !in old(db).clusters || old(db).clusters[id].version != expected
      ensures outcome == Some(WRITE_FAILED) <==>
                && id in old(db).clusters && old(db).clusters[id].version == expected
                && (cluster.currentSoc < 0 || cluster.currentSoc > 100)
      ensures outcome.Some? ==> db == old(db) && (outcome.value == VERSION_CONFLICT || outcome.value == WRITE_FAILED)
      ensures outcome.None? ==>
                && id in db.clusters && SameCluster(db.clusters[id], old(db).clusters[id])
                && db.clusters[id].currentSoc == cluster.currentSoc && db.clusters[id].status == cluster.status
                && db.clusters[id].latestSequence == cluster.latestSequence
                && db.clusters[id].latestTelemetryAt == cluster.latestTelemetryAt && db.clusters[id].version == cluster.version
                && db == old(db).(clusters := old(db).clusters[id := db.clusters[id]])
    {
      if id !in db.clusters || db.clusters[id].version != expected {
        return Some(VERSION_CONFLICT);
      }
      if cluster.currentSoc < 0 || cluster.currentSoc > 100 {
        return Some(WRITE_FAILED);
      }
      var row := db.clusters[id];
      row := row.(currentSoc := cluster.currentSoc, status := cluster.status);
      row := row.(latestSequence := cluster.latestSequence, latestTelemetryAt := cluster.latestTelemetryAt);
      row := row.(version := cluster.version);
      db := db.(clusters := db.clusters[id := row]);
      outcome := None;
    }

    /** Status, attempts, next attempt, lease, error and version are written; plan, cluster and limit stay, and every other row. */
    method CompleteJob(id: Id, job: Job, expected: int) returns (outcome: Option<Fault>)
      modifies this
      ensures db == Commit(old(db), CompleteJobTx(old(db), id, job, expected))
      ensures outcome.None? <==> CompleteJobTx(old(db), id, job, expected).Some?
      ensures outcome.None? <==> id in old(db).jobs && old(db).jobs[id].version == expected
      ensures outcome.Some? ==> outcome.value == VERSION_CONFLICT && db == old(db)
      ensures outcome.None? ==>
                && id in db.jobs && db.jobs[id].planId == old(db).jobs[id].planId
                && db.jobs[id].clusterId == old(db).jobs[id].clusterId && db.jobs[id].maxAttempts == old(db).jobs[id].maxAttempts
                && db.jobs[id] == job.(planId := db.jobs[id].planId, clusterId := db.jobs[id].clusterId, maxAttempts := db.jobs[id].maxAttempts)
                && db == old(db).(jobs := old(db).jobs[id := db.jobs[id]])
    {
      if id !in db.jobs || db.jobs[id].version != expected {
        return Some(VERSION_CONFLICT);
      }
      var row := db.jobs[id];
      row := row.(status := job.status, attempts := job.attempts, nextAttemptAt := job.nextAttemptAt);
      row := row.(leaseOwner := job.leaseOwner, leaseUntil := job.leaseUntil);
      row := row.(lastError := job.lastError, version := job.version);
      db := db.(jobs := db.jobs[id := row]);
      outcome := None;
    }

    /**
     * Conflict check for every reservation, then the site, then reservation and cluster
     * row by row, then the plan, then the audit event.
     */
    method SubmitPlanAtomic(s: Submission, audited: bool) returns (outcome: Option<Fault>)
      requires |s.ids| == |s.rows|
      modifies this
      ensures db == Commit(old(db), SubmitTx(old(db), s, audited))
      ensures outcome.None? <==> SubmitTx(old(db), s, audited).Some?
    {
      var tx := db;
      var conflict := AnyConflict(tx, s.rows);
      if conflict {
        return Some(Fault(Internal, "capacity_reservation_conflict"));
      }
      if !SiteTakes(tx.sites, s) {
        return Some(VERSION_CONFLICT);
      }
      var sites := tx.sites[s.siteId := TakePower(tx.sites[s.siteId], s.sitePower)];
      var held := HoldEachRow(tx, s.ids, s.rows);
      InsertRowsInBulk(tx, s.ids, s.rows);
      if held.None? {
        return Some(CONSTRAINT);
      }
      tx := held.value.(sites := sites);
      if s.planId !in tx.plans || tx.plans[s.planId].version != s.expectedPlan {
        return Some(VERSION_CONFLICT);
      }
      var plan := tx.plans[s.planId];
      tx := tx.(plans := tx.plans[s.planId := plan.(status := s.plan.status, version := s.plan.version)]);
      if !audited {
        return Some(WRITE_FAILED);
      }
      db := tx;
      return None;
    }

    /** All jobs first, then the plan, then the audit event. */
    method DispatchPlanAtomic(planId: Id, plan: Plan, expected: int, ids: seq<Id>, jobs: seq<Job>, audited: bool)
      returns (outcome: Option<Fault>)
      requires |ids| == |jobs|
      modifies this
      ensures db == Commit(old(db), DispatchTx(old(db), planId, plan, expected, ids, jobs, audited))
      ensures outcome.None? <==> DispatchTx(old(db), planId, plan, expected, ids, jobs, audited).Some?
    {
      hide AllJobsFit, Zip;
      var added := InsertEachJob(db, ids, jobs);
      InsertJobsInBulk(db, ids, jobs);
      if added.None? {
        return Some(CONSTRAINT);
      }
      var tx := added.value;
      if planId !in tx.plans || tx.plans[planId].version != expected {
        return Some(VERSION_CONFLICT);
      }
      var row := tx.plans[planId];
      tx := tx.(plans := tx.plans[planId := row.(status := plan.status, version := plan.version)]);
      if !audited {
        return Some(WRITE_FAILED);
      }
      db := tx;
      return None;
    }

    /**
     * The candidates are leased one by one; one that can no longer be leased is skipped.
     * Every job returned satisfied Claimable when it was taken, although the query that
     * chose the candidates compared times as text.
     */
    method ClaimJobs(owner: string, limit: nat, now: Instant, duration: nat) returns (claimed: seq<Id>, ghost candidates: seq<Id>)
      modifies this
      ensures Selected(old(db).jobs, now, limit, candidates)
      ensures db == ClaimTx(old(db), owner, candidates, now, duration)
      ensures forall id :: id in claimed <==> id in candidates && WasClaimed(old(db).jobs, id, owner, now, duration)
      ensures |claimed| <= limit && Distinct(claimed)
      ensures db == old(db).(jobs := db.jobs) && db.jobs.Keys == old(db).jobs.Keys
      ensures forall id :: id in claimed ==> id in db.jobs && LeasedTo(old(db).jobs[id], db.jobs[id], owner, now + duration)
      ensures forall id :: id in db.jobs && id !in claimed ==> db.jobs[id] == old(db).jobs[id]
    {
      hide Selected, WasClaimed, ClaimTx, LeasedTo;
      ClaimedRows(db, owner, now, duration);
      var found := DueJobs(db.jobs, now, limit);
      candidates := found;
      SelectedAreDistinct(db.jobs, now, limit, found);
      SelectedExist(db.jobs, now, limit, found);
      var jobs;
      jobs, claimed := LeaseEach(db, owner, found, now, duration);
      ClaimWritesJobs(db, owner, found, now, duration);
      db := db.(jobs := jobs);
    }

    /** Snapshot first, then the cluster row, then each alarm unless one like it is active, then the audit event. */
    method StoreTelemetryAtomic(id: Id, s: Snapshot, soc: int, clusterVersion: int, alarmIds: seq<Id>, alarms: seq<Alarm>, audited: bool)
      returns (outcome: Option<Fault>)
      requires |alarmIds| == |alarms|
      modifies this
      ensures db == Commit(old(db), TelemetryTx(old(db), id, s, soc, clusterVersion, alarmIds, alarms, audited))
      ensures outcome.None? <==> TelemetryTx(old(db), id, s, soc, clusterVersion, alarmIds, alarms, audited).Some?
    {
      var tx := db;
      var c := s.reading.clusterId;
      if id in tx.snapshots || c !in tx.clusters || SequenceTaken(tx.snapshots, c, s.reading.sequence)
         || s.reading.soc < 0 || s.reading.soc > 100 {
        return Some(CONSTRAINT);
      }
      tx := tx.(snapshots := tx.snapshots[id := s]);
      if tx.clusters[c].version != clusterVersion || tx.clusters[c].latestSequence >= s.reading.sequence {
        return Some(VERSION_CONFLICT);
      }
      if soc < 0 || soc > 100 {
        return Some(CONSTRAINT);
      }
      tx := tx.(clusters := tx.clusters[c := Advance(tx.clusters[c], s, soc)]);
      var i := 0;
      while i < |alarms|
        invariant 0 <= i <= |alarms|
        invariant tx == db.(snapshots := db.snapshots[id := s],
                            clusters := db.clusters[c := Advance(db.clusters[c], s, soc)],
                            alarms := RaiseAlarms(db.alarms, alarmIds[..i], alarms[..i]))
      {
        assert alarmIds[..i + 1][..i] == alarmIds[..i] && alarms[..i + 1][..i] == alarms[..i];
        if alarmIds[i] !in tx.alarms && !ActiveAlarm(tx.alarms, alarms[i].fingerprint) {
          tx := tx.(alarms := tx.alarms[alarmIds[i] := alarms[i]]);
        }
        i := i + 1;
      }
      assert alarmIds[..i] == alarmIds && alarms[..i] == alarms;
      if !audited {
        return Some(WRITE_FAILED);
      }
      db := tx;
      return None;
    }

    method UpdateAlarm(id: Id, alarm: Alarm, expected: int, audited: bool) returns (outcome: Option<Fault>)
      modifies this
      ensures db == Commit(old(db), UpdateAlarmTx(old(db), id, alarm, expected, audited))
      ensures outcome.None? <==> UpdateAlarmTx(old(db), id, alarm, expected, audited).Some?
      ensures outcome == Some(VERSION_CONFLICT) <==> id !in old(db).alarms || old(db).alarms[id].version != expected
      ensures outcome.Some? ==> db == old(db) && (outcome.value == VERSION_CONFLICT || outcome.value == WRITE_FAILED)
      ensures outcome.None? ==>
                && id in db.alarms && db.alarms[id].siteId == old(db).alarms[id].siteId
                && db.alarms[id].clusterId == old(db).alarms[id].clusterId && db.alarms[id].kind == old(db).alarms[id].kind
                && db.alarms[id].fingerprint == old(db).alarms[id].fingerprint && db.alarms[id].status == alarm.status
                && db.alarms[id].version == alarm.version && db.alarms[id].severity == alarm.severity
                && db.alarms[id].acknowledgedBy == alarm.acknowledgedBy && db.alarms[id].resolvedBy == alarm.resolvedBy
                && db == old(db).(alarms := old(db).alarms[id := db.alarms[id]])
    {
      if id !in db.alarms || db.alarms[id].version != expected {
        return Some(VERSION_CONFLICT);
      }
      if !audited {
        return Some(WRITE_FAILED);
      }
      var row := db.alarms[id];
      row := row.(severity := alarm.severity, status := alarm.status);
      row := row.(acknowledgedBy := alarm.acknowledgedBy, resolvedBy := alarm.resolvedBy, version := alarm.version);
      db := db.(alarms := db.alarms[id := row]);
      outcome := None;
    }
  }

  lemma SelectedExist(jobs: map<Id, Job>, now: Instant, limit: nat, candidates: seq<Id>)
    requires Selected(jobs, now, limit, candidates)
    ensures |candidates| <= limit && forall id :: id in candidates ==> id in jobs
  {
  }

  lemma ClaimWritesJobs(db: Db, owner: string, candidates: seq<Id>, now: Instant, duration: nat)
    ensures ClaimTx(db, owner, candidates, now, duration) == db.(jobs := ClaimTx(db, owner, candidates, now, duration).jobs)
  {
  }

  /** A job that is claimed is leased for the whole duration; the others stay. */
  lemma ClaimedRows(db: Db, owner: string, now: Instant, duration: nat)
    ensures forall candidates: seq<Id> :: ClaimTx(db, owner, candidates, now, duration).jobs.Keys == db.jobs.Keys
    ensures forall candidates: seq<Id>, id :: id in db.jobs ==>
              var after := ClaimTx(db, owner, candidates, now, duration).jobs;
              && id in after
              && if id in candidates && WasClaimed(db.jobs, id, owner, now, duration) then LeasedTo(db.jobs[id], after[id], owner, now + duration)
                 else after[id] == db.jobs[id]
  {
    hide LeasedTo, Leasable, Job.Lease;
    forall id | id in db.jobs
      ensures db.jobs[id].Lease(owner, now, duration).Ok? <==> WasClaimed(db.jobs, id, owner, now, duration)
      ensures forall after :: db.jobs[id].Lease(owner, now, duration) == Ok(after) ==> LeasedTo(db.jobs[id], after, owner, now + duration)
    {
      forall after ensures db.jobs[id].Lease(owner, now, duration) == Ok(after) ==> LeasedTo(db.jobs[id], after, owner, now + duration) {
        LeaseIff(db.jobs[id], after, owner, now, duration);
      }
      LeaseIff(db.jobs[id], db.jobs[id], owner, now, duration);
    }
  }

  /** The claim query: the first `limit` due jobs in its order, one after another. There always are such. */
  method DueJobs(jobs: map<Id, Job>, now: Instant, limit: nat) returns (candidates: seq<Id>)
    ensures Selected(jobs, now, limit, candidates)
  {
    hide IsDue, ClaimedBefore;
    candidates := [];
    var todo := set id | id in jobs && IsDue(jobs[id], now);
    while |candidates| < limit && todo != {}
      invariant |candidates| <= limit && forall id :: id in todo ==> id in jobs && IsDue(jobs[id], now)
      invariant forall id :: id in jobs && IsDue(jobs[id], now) ==> id in todo || id in candidates
      invariant forall i :: 0 <= i < |candidates| ==> candidates[i] in jobs && IsDue(jobs[candidates[i]], now)
      invariant forall i, j :: 0 <= i < j < |candidates| ==> ClaimedBefore(jobs, candidates[i], candidates[j])
      invariant forall i, id :: 0 <= i < |candidates| && id in todo ==> ClaimedBefore(jobs, candidates[i], id)
      decreases todo
    {
      var first := FirstToClaim(jobs, todo);
      candidates := candidates + [first];
      todo := todo - {first};
    }
  }

  method FirstToClaim(jobs: map<Id, Job>, ids: set<Id>) returns (first: Id)
    requires ids != {} && ids <= jobs.Keys
    ensures first in ids && forall id :: id in ids && id != first ==> ClaimedBefore(jobs, first, id)
  {
    hide ClaimedBefore;
    first :| first in ids;
    var rest := ids - {first};
    while rest != {}
      invariant rest <= ids && first in ids && first !in rest
      invariant forall id :: id in ids && id !in rest && id != first ==> ClaimedBefore(jobs, first, id)
    {
      var id :| id in rest;
      ClaimOrderIsStrictTotal(jobs, first, id);
      if ClaimedBefore(jobs, id, first) {
        forall x | x in ids && x !in rest && x != first ensures ClaimedBefore(jobs, id, x) {
          ClaimOrderIsTransitive(jobs, id, first, x);
        }
        first := id;
      }
      rest := rest - {id};
    }
  }

  /** The job could be leased at `now`, which takes a job that is truly claimable. */
  predicate WasClaimed(jobs: map<Id, Job>, id: Id, owner: string, now: Instant, duration: nat)
    ensures WasClaimed(jobs, id, owner, now, duration) ==> id in jobs && jobs[id].Claimable(now)
  {
    id in jobs && Leasable(jobs[id], owner, now, duration)
  }

  /** The first loop of SubmitPlanAtomic. */
  method AnyConflict(db: Db, rows: seq<Reservation>) returns (conflict: bool)
    ensures conflict <==> exists i :: 0 <= i < |rows| && ConflictExists(db.reservations, rows[i].clusterId, rows[i].window)
  {
    hide ConflictExists;
    for i := 0 to |rows|
      invariant forall k :: 0 <= k < i ==> !ConflictExists(db.reservations, rows[k].clusterId, rows[k].window)
    {
      if ConflictExists(db.reservations, rows[i].clusterId, rows[i].window) {
        return true;
      }
    }
    return false;
  }

  /** The loop of ClaimJobs, on a working copy. */
  method LeaseEach(db: Db, owner: string, candidates: seq<Id>, now: Instant, duration: nat)
    returns (jobs: map<Id, Job>, claimed: seq<Id>)
    requires Distinct(candidates) && forall id :: id in candidates ==> id in db.jobs
    ensures jobs == ClaimTx(db, owner, candidates, now, duration).jobs
    ensures forall id :: id in claimed <==> id in candidates && WasClaimed(db.jobs, id, owner, now, duration)
    ensures |claimed| <= |candidates| && Distinct(claimed)
  {
    hide ClaimTx, Job.Lease, Leasable, LeasedTo;
    jobs, claimed := db.jobs, [];
    var i := 0;
    ClaimNone(db, owner, now, duration);
    while i < |candidates|
      invariant 0 <= i <= |candidates| && |claimed| <= i
      invariant jobs == ClaimTx(db, owner, candidates[..i], now, duration).jobs
      invariant forall id :: id in claimed <==> id in candidates[..i] && WasClaimed(db.jobs, id, owner, now, duration)
      invariant Distinct(claimed)
    {
      var id := candidates[i];
      assert candidates[..i + 1] == candidates[..i] + [id] && id !in candidates[..i];
      ClaimNext(db, owner, candidates[..i], id, now, duration);
      LeaseIff(jobs[id], jobs[id], owner, now, duration);
      var leased := jobs[id].Lease(owner, now, duration);
      if leased.Ok? {
        jobs := jobs[id := leased.value];
        claimed := claimed + [id];
      }
      i := i + 1;
    }
    assert candidates[..i] == candidates;
  }

  lemma ClaimNone(db: Db, owner: string, now: Instant, duration: nat)
    ensures ClaimTx(db, owner, [], now, duration).jobs == db.jobs
  {
  }

  /** Leasing one more candidate. */
  lemma ClaimNext(db: Db, owner: string, candidates: seq<Id>, id: Id, now: Instant, duration: nat)
    requires id in db.jobs && id !in candidates
    ensures var jobs := ClaimTx(db, owner, candidates, now, duration).jobs;
            var leased := db.jobs[id].Lease(owner, now, duration);
            && id in jobs && jobs[id] == db.jobs[id]
            && ClaimTx(db, owner, candidates + [id], now, duration).jobs
               == if leased.Ok? then jobs[id := leased.value] else jobs
  {
  }

  /** The loop of DispatchPlanAtomic, on a working copy. */
  method InsertEachJob(db: Db, ids: seq<Id>, jobs: seq<Job>) returns (added: Option<Db>)
    requires |ids| == |jobs|
    ensures added == InsertJobs(db, ids, jobs)
  {
    var tx := db;
    var i := 0;
    assert InsertJobs(db, ids[..0], jobs[..0]) == Some(tx);
    hide InsertJobs, JobFits;
    while i < |jobs|
      invariant 0 <= i <= |jobs|
      invariant InsertJobs(db, ids[..i], jobs[..i]) == Some(tx)
    {
      InsertJobsNext(db, ids, jobs, i, tx);
      if !JobFits(tx, ids[i], jobs[i]) {
        InsertJobsStops(db, ids, jobs, i + 1);
        return None;
      }
      tx := tx.(jobs := tx.jobs[ids[i] := jobs[i]]);
      i := i + 1;
    }
    assert ids[..i] == ids && jobs[..i] == jobs;
    return Some(tx);
  }

  /** The second loop of SubmitPlanAtomic, on a working copy. */
  method HoldEachRow(db: Db, ids: seq<Id>, rows: seq<Reservation>) returns (held: Option<Db>)
    requires |ids| == |rows|
    ensures held == InsertRows(db, ids, rows)
  {
    var tx := db;
    var i := 0;
    assert InsertRows(db, ids[..0], rows[..0]) == Some(tx);
    hide InsertRows, PairTaken;
    while i < |rows|
      invariant 0 <= i <= |rows|
      invariant InsertRows(db, ids[..i], rows[..i]) == Some(tx)
    {
      var (id, row) := (ids[i], rows[i]);
      InsertRowsNext(db, ids, rows, i, tx);
      if id in tx.reservations || row.planId !in tx.plans || row.clusterId !in tx.clusters || row.reservedKW <= 0
         || PairTaken(tx.reservations, row.planId, row.clusterId) {
        InsertRowsStops(db, ids, rows, i + 1);
        return None;
      }
      if !tx.clusters[row.clusterId].status.Available? {
        InsertRowsStops(db, ids, rows, i + 1);
        return None;
      }
      tx := tx.(reservations := tx.reservations[id := row],
                clusters := tx.clusters[row.clusterId := Taken(tx.clusters[row.clusterId])]);
      i := i + 1;
    }
    assert ids[..i] == ids && rows[..i] == rows;
    return Some(tx);
  }
}
