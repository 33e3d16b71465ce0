/**
 * The database as a value, and what each statement or transaction does to it as a whole.
 *
 * A transaction is a partial function: None means that some guard of a WHERE clause, a
 * UNIQUE, CHECK or REFERENCES constraint of migrations/001_initial.sql, or the audit
 * insert failed, and everything is rolled back (InTx in internal/storage/sqlite/db.go).
 * The row-by-row loops of the source are in module Stores and are proved to have these effects.
 */
module Tables {
  import opened Prelude
  import opened TimeEncoding
  import opened Clock
  import opened Sites
  import opened Plans
  import opened Jobs
  import opened Telemetry

  datatype Db = Db(
    sites: map<Id, Site>, clusters: map<Id, Cluster>, plans: map<Id, Plan>, reservations: map<Id, Reservation>,
    jobs: map<Id, Job>, snapshots: map<Id, Snapshot>, alarms: map<Id, Alarm>)

  const EMPTY := Db(map[], map[], map[], map[], map[], map[], map[])

  /** All or nothing. */
  function Commit(db: Db, tx: Option<Db>): Db {
    if tx.Some? then tx.value else db
  }

  // ----- Single statements -----

  function InsertSiteTx(db: Db, id: Id, site: Site): Option<Db> {
    if id in db.sites || !(0 <= site.reservedKW <= site.gridLimitKW && site.gridLimitKW > 0) then None
    else Some(db.(sites := db.sites[id := site]))
  }

  function UpdateSiteTx(db: Db, id: Id, site: Site, expected: int): Option<Db> {
    if id !in db.sites || db.sites[id].version != expected then None
    else if !(0 <= site.reservedKW <= site.gridLimitKW && site.gridLimitKW > 0) then None
    else Some(db.(sites := db.sites[id := site]))
  }

  function InsertClusterTx(db: Db, id: Id, cluster: Cluster): Option<Db> {
    if id in db.clusters || cluster.siteId !in db.sites then None
    else Some(db.(clusters := db.clusters[id := cluster]))
  }

  function UpdateClusterTx(db: Db, id: Id, cluster: Cluster, expected: int): Option<Db> {
    if id !in db.clusters || db.clusters[id].version != expected || !(0 <= cluster.currentSoc <= 100) then None
    else
      Some(db.(clusters := db.clusters[id := db.clusters[id].(
                 currentSoc := cluster.currentSoc, status := cluster.status, latestSequence := cluster.latestSequence,
                 latestTelemetryAt := cluster.latestTelemetryAt, version := cluster.version)]))
  }

  /** starts_at < ends_at is a CHECK on the stored text. */
  function InsertPlanTx(db: Db, id: Id, plan: Plan): Option<Db> {
    if id in db.plans || plan.siteId !in db.sites || !SqlLess(plan.window.start, plan.window.end) then None
    else if plan.requestedKW <= 0 || plan.targetKWh <= 0 then None
    else Some(db.(plans := db.plans[id := plan]))
  }

  function UpdatePlanTx(db: Db, id: Id, plan: Plan, expected: int): Option<Db> {
    if id !in db.plans || db.plans[id].version != expected then None
    else
      Some(db.(plans := db.plans[id := db.plans[id].(
                 status := plan.status, approvedBy := plan.approvedBy, approvedAt := plan.approvedAt,
                 version := plan.version)]))
  }

  function CompleteJobTx(db: Db, id: Id, job: Job, expected: int): Option<Db> {
    if id !in db.jobs || db.jobs[id].version != expected then None
    else
      Some(db.(jobs := db.jobs[id := db.jobs[id].(
                 status := job.status, attempts := job.attempts, nextAttemptAt := job.nextAttemptAt,
                 leaseOwner := job.leaseOwner, leaseUntil := job.leaseUntil, lastError := job.lastError,
                 version := job.version)]))
  }

  function UpdateAlarmTx(db: Db, id: Id, alarm: Alarm, expected: int, audited: bool): Option<Db> {
    if id !in db.alarms || db.alarms[id].version != expected || !audited then None
    else
      Some(db.(alarms := db.alarms[id := db.alarms[id].(
                 severity := alarm.severity, status := alarm.status, acknowledgedBy := alarm.acknowledgedBy,
                 resolvedBy := alarm.resolvedBy, version := alarm.version)]))
  }

  // ----- SubmitPlanAtomic -----

  datatype Submission = Submission(
    planId: Id, plan: Plan, expectedPlan: int, ids: seq<Id>, rows: seq<Reservation>,
    siteId: Id, sitePower: int, expectedSite: int)

  /** The query of reservationConflict, on the stored text of the bounds. */
  predicate ConflictExists(reservations: map<Id, Reservation>, clusterId: Id, window: Window) {
    exists id | id in reservations ::
      && reservations[id].clusterId == clusterId && !reservations[id].status.Released?
      && reservations[id].window.SqlOverlaps(window)
  }

  predicate PairTaken(reservations: map<Id, Reservation>, planId: Id, clusterId: Id) {
    exists id | id in reservations :: reservations[id].planId == planId && reservations[id].clusterId == clusterId
  }

  predicate SiteTakes(sites: map<Id, Site>, s: Submission) {
    && s.siteId in sites
    && var site := sites[s.siteId];
       && site.version == s.expectedSite && site.status.Active?
       && 0 <= site.reservedKW + s.sitePower <= site.gridLimitKW
  }

  /** The row can be inserted and its cluster taken. */
  predicate RowFits(db: Db, id: Id, row: Reservation) {
    && id !in db.reservations && row.planId in db.plans && row.reservedKW > 0
    && !PairTaken(db.reservations, row.planId, row.clusterId)
    && row.clusterId in db.clusters && db.clusters[row.clusterId].status.Available?
  }

  predicate DistinctClusters(rows: seq<Reservation>) {
    forall i, j :: 0 <= i < j < |rows| ==> rows[i].clusterId != rows[j].clusterId
  }

  predicate AllFit(db: Db, ids: seq<Id>, rows: seq<Reservation>)
    requires |ids| == |rows|
  {
    && Distinct(ids) && DistinctClusters(rows)
    && forall i :: 0 <= i < |rows| ==> RowFits(db, ids[i], rows[i])
  }

  predicate CanSubmit(db: Db, s: Submission)
    requires |s.ids| == |s.rows|
  {
    && (forall i :: 0 <= i < |s.rows| ==> !ConflictExists(db.reservations, s.rows[i].clusterId, s.rows[i].window))
    && SiteTakes(db.sites, s)
    && AllFit(db, s.ids, s.rows)
    && s.planId in db.plans && db.plans[s.planId].version == s.expectedPlan
  }

  function ClustersOf(rows: seq<Reservation>): set<Id> { set r | r in rows :: r.clusterId }

  function Taken(cluster: Cluster): Cluster { cluster.(status := Reserved, version := cluster.version + 1) }

  function TakeClusters(clusters: map<Id, Cluster>, taken: set<Id>): map<Id, Cluster> {
    map c | c in clusters :: if c in taken then Taken(clusters[c]) else clusters[c]
  }

  function Hold(db: Db, ids: seq<Id>, rows: seq<Reservation>): Db
    requires |ids| == |rows|
  {
    db.(clusters := TakeClusters(db.clusters, ClustersOf(rows)), reservations := db.reservations + Zip(ids, rows))
  }

  function TakePower(site: Site, powerKW: int): Site {
    site.(reservedKW := site.reservedKW + powerKW, version := site.version + 1)
  }

  function SubmitTx(db: Db, s: Submission, audited: bool): Option<Db>
    requires |s.ids| == |s.rows|
  {
    if !CanSubmit(db, s) || !audited then None
    else
      Some(Hold(db, s.ids, s.rows).(
        sites := db.sites[s.siteId := TakePower(db.sites[s.siteId], s.sitePower)],
        plans := db.plans[s.planId := db.plans[s.planId].(status := s.plan.status, version := s.plan.version)]))
  }

  // ----- DispatchPlanAtomic -----

  predicate JobPairTaken(jobs: map<Id, Job>, planId: Id, clusterId: Id) {
    exists id | id in jobs :: jobs[id].planId == planId && jobs[id].clusterId == clusterId
  }

  predicate JobFits(db: Db, id: Id, job: Job) {
    && id !in db.jobs && job.planId in db.plans && job.clusterId in db.clusters
    && job.maxAttempts > 0 && job.attempts >= 0
    && !JobPairTaken(db.jobs, job.planId, job.clusterId)
  }

  predicate DistinctPairs(jobs: seq<Job>) {
    forall i, j :: 0 <= i < j < |jobs| ==> jobs[i].planId != jobs[j].planId || jobs[i].clusterId != jobs[j].clusterId
  }

  predicate AllJobsFit(db: Db, ids: seq<Id>, jobs: seq<Job>)
    requires |ids| == |jobs|
  {
    && Distinct(ids) && DistinctPairs(jobs)
    && forall i :: 0 <= i < |jobs| ==> JobFits(db, ids[i], jobs[i])
  }

  function AddJobs(db: Db, ids: seq<Id>, jobs: seq<Job>): Db
    requires |ids| == |jobs|
  {
    db.(jobs := db.jobs + Zip(ids, jobs))
  }

  predicate CanDispatch(db: Db, planId: Id, expected: int, ids: seq<Id>, jobs: seq<Job>)
    requires |ids| == |jobs|
  {
    && AllJobsFit(db, ids, jobs)
    && planId in db.plans && db.plans[planId].version == expected
  }

  function DispatchTx(db: Db, planId: Id, plan: Plan, expected: int, ids: seq<Id>, jobs: seq<Job>, audited: bool): Option<Db>
    requires |ids| == |jobs|
  {
    if !CanDispatch(db, planId, expected, ids, jobs) || !audited then None
    else
      Some(AddJobs(db, ids, jobs).(
        plans := db.plans[planId := db.plans[planId].(status := plan.status, version := plan.version)]))
  }

  // ----- ClaimJobs -----

  /** The WHERE clause of the claim query, on the stored text of the times. */
  predicate IsDue(job: Job, now: Instant) {
    || ((job.status.Pending? || job.status.Retryable?) && SqlAtMost(job.nextAttemptAt, now))
    || (job.status.Leased? && job.leaseUntil.Some? && SqlAtMost(job.leaseUntil.value, now))
  }

  /** ORDER BY next_attempt_at, id */
  predicate ClaimedBefore(jobs: map<Id, Job>, a: Id, b: Id)
    requires a in jobs && b in jobs
  {
    var (ta, tb) := (EncodeTime(jobs[a].nextAttemptAt), EncodeTime(jobs[b].nextAttemptAt));
    Less(ta, tb) || (ta == tb && Less(a, b))
  }

  /** `candidates` is the result of the claim query: the first `limit` due jobs in order. */
  predicate Selected(jobs: map<Id, Job>, now: Instant, limit: nat, candidates: seq<Id>) {
    && |candidates| <= limit
    && (forall i :: 0 <= i < |candidates| ==> candidates[i] in jobs && IsDue(jobs[candidates[i]], now))
    && (forall i, j :: 0 <= i < j < |candidates| ==> ClaimedBefore(jobs, candidates[i], candidates[j]))
    && (forall id | id in jobs && IsDue(jobs[id], now) && id !in candidates ::
          |candidates| == limit && forall i :: 0 <= i < |candidates| ==> ClaimedBefore(jobs, candidates[i], id))
  }

  lemma SelectedAreDistinct(jobs: map<Id, Job>, now: Instant, limit: nat, candidates: seq<Id>)
    requires Selected(jobs, now, limit, candidates)
    ensures Distinct(candidates)
  {
    forall i, j | 0 <= i < j < |candidates| ensures candidates[i] != candidates[j] {
      var t := EncodeTime(jobs[candidates[i]].nextAttemptAt);
      LessIsStrict(t, t);
      LessIsStrict(candidates[i], candidates[i]);
    }
  }

  /** The order of the claim query is a strict total order of the jobs. */
  lemma ClaimOrderIsStrictTotal(jobs: map<Id, Job>, a: Id, b: Id)
    requires a in jobs && b in jobs && a != b
    ensures ClaimedBefore(jobs, a, b) || ClaimedBefore(jobs, b, a)
  {
    LessIsStrict(EncodeTime(jobs[a].nextAttemptAt), EncodeTime(jobs[b].nextAttemptAt));
    LessIsStrict(a, b);
  }

  /** On comparable times the jobs that have waited longest come first. */
  lemma ClaimOrderIsByTime(jobs: map<Id, Job>, a: Id, b: Id)
    requires a in jobs && b in jobs && FourDigitYear(jobs[a].nextAttemptAt) && FourDigitYear(jobs[b].nextAttemptAt)
    requires Comparable(jobs[a].nextAttemptAt, jobs[b].nextAttemptAt)
    ensures ClaimedBefore(jobs, a, b) <==>
              || jobs[a].nextAttemptAt < jobs[b].nextAttemptAt
              || (jobs[a].nextAttemptAt == jobs[b].nextAttemptAt && Less(a, b))
  {
    var (ta, tb) := (jobs[a].nextAttemptAt, jobs[b].nextAttemptAt);
    ComparableOrder(ta, tb);
    if ta != tb { TextOrderIsTimeOrder(ta, tb); }
    hide EncodeTime, Less, Comparable, FourDigitYear;
  }

  lemma ClaimOrderIsTransitive(jobs: map<Id, Job>, a: Id, b: Id, c: Id)
    requires a in jobs && b in jobs && c in jobs && ClaimedBefore(jobs, a, b) && ClaimedBefore(jobs, b, c)
    ensures ClaimedBefore(jobs, a, c)
  {
    var (ta, tb, tc) := (EncodeTime(jobs[a].nextAttemptAt), EncodeTime(jobs[b].nextAttemptAt), EncodeTime(jobs[c].nextAttemptAt));
    hide EncodeTime;
    if Less(ta, tb) && Less(tb, tc) {
      LessTransitive(ta, tb, tc);
    } else if ta == tb && tb == tc {
      LessTransitive(a, b, c);
    }
  }

  /** Every candidate that can still be leased is leased; the others are skipped. */
  function ClaimTx(db: Db, owner: string, candidates: seq<Id>, now: Instant, duration: nat): Db {
    db.(jobs := map id | id in db.jobs ::
          var leased := db.jobs[id].Lease(owner, now, duration);
          if id in candidates && leased.Ok? then leased.value else db.jobs[id])
  }

  // ----- StoreTelemetryAtomic -----

  predicate ActiveAlarm(alarms: map<Id, Alarm>, fingerprint: string) {
    exists id | id in alarms :: alarms[id].fingerprint == fingerprint && !alarms[id].status.Resolved?
  }

  /** INSERT ... ON CONFLICT DO NOTHING, one alarm after another. */
  function RaiseAlarms(alarms: map<Id, Alarm>, ids: seq<Id>, rows: seq<Alarm>): map<Id, Alarm>
    requires |ids| == |rows|
  {
    if ids == [] then alarms
    else
      var n := |ids| - 1;
      var before := RaiseAlarms(alarms, ids[..n], rows[..n]);
      if ids[n] in before || ActiveAlarm(before, rows[n].fingerprint) then before else before[ids[n] := rows[n]]
  }

  predicate SequenceTaken(snapshots: map<Id, Snapshot>, clusterId: Id, sequence: int) {
    exists id | id in snapshots :: snapshots[id].reading.clusterId == clusterId && snapshots[id].reading.sequence == sequence
  }

  predicate CanStore(db: Db, id: Id, s: Snapshot, soc: int, clusterVersion: int) {
    var c := s.reading.clusterId;
    && id !in db.snapshots && c in db.clusters && 0 <= s.reading.soc <= 100 && 0 <= soc <= 100
    && !SequenceTaken(db.snapshots, c, s.reading.sequence)
    && db.clusters[c].version == clusterVersion && db.clusters[c].latestSequence < s.reading.sequence
  }

  function Advance(cluster: Cluster, s: Snapshot, soc: int): Cluster {
    cluster.(currentSoc := soc, latestSequence := s.reading.sequence, latestTelemetryAt := Some(s.reading.observedAt),
             version := cluster.version + 1)
  }

  function TelemetryTx(db: Db, id: Id, s: Snapshot, soc: int, clusterVersion: int, alarmIds: seq<Id>, alarms: seq<Alarm>, audited: bool): Option<Db>
    requires |alarmIds| == |alarms|
  {
    if !CanStore(db, id, s, soc, clusterVersion) || !audited then None
    else
      var c := s.reading.clusterId;
      Some(db.(
        snapshots := db.snapshots[id := s],
        clusters := db.clusters[c := Advance(db.clusters[c], s, soc)],
        alarms := RaiseAlarms(db.alarms, alarmIds, alarms)))
  }
}
