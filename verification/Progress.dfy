/**
 * Calls that are not disturbed: all their reads come from the current state. Each of
 * them commits exactly when a condition on that state holds, which a caller could check
 * beforehand. So the guards and keys refuse nothing but what they are there to refuse.
 */
module Progress {
  import opened Prelude
  import opened Clock
  import opened Sites
  import opened Plans
  import opened Jobs
  import opened Telemetry
  import opened Tables
  import opened Machine
  import opened Invariants
  import opened Preservation
  import opened Submissions
  import opened Dispatches
  import opened Reachable

  // ----- Submit -----

  /** Every read is of the current state, and the identifiers are fresh. */
  ghost predicate Undisturbed(h: History, c: Call)
    requires c.SubmitPlan?
  {
    && c.at == c.siteAt == |h| - 1 && (forall i :: 0 <= i < |c.clustersAt| ==> c.clustersAt[i] == |h| - 1)
    && Distinct(c.ids) && forall id :: id in c.ids ==> id !in Last(h).reservations
  }

  /** The site has the power to spare and no selected cluster is seen to be taken within the window. */
  ghost predicate RoomFor(db: Db, c: Call)
    requires c.SubmitPlan?
  {
    && c.planId in db.plans && db.plans[c.planId].siteId in db.sites
    && db.sites[db.plans[c.planId].siteId].reservedKW + db.plans[c.planId].requestedKW <= db.sites[db.plans[c.planId].siteId].gridLimitKW
    && forall i :: 0 <= i < |c.clusterIds| ==> !ConflictExists(db.reservations, c.clusterIds[i], db.plans[c.planId].window)
  }

  lemma PairIsFree(db: Db, planId: Id, clusterId: Id)
    requires ReservationsOk(db.reservations, db.plans, db.clusters) && planId in db.plans && db.plans[planId].status.Draft?
    ensures !PairTaken(db.reservations, planId, clusterId)
  {
    DraftsHoldNothing(db, planId);
    hide ReservationsOk;
  }

  lemma ChosenIsAvailable(plan: Plan, row: Cluster)
    requires ClusterChosen(plan, row)
    ensures row.status.Available?
  {
  }

  /** The rows of a ready, undisturbed submission fit. */
  lemma ReadyRowsFit(h: History, c: Call, plan: Plan, shares: map<Id, int>)
    requires c.SubmitPlan? && Undisturbed(h, c) && Chosen(h, plan, c.clusterIds, c.clustersAt) && |c.ids| == |c.clusterIds|
    requires ReservationsOk(Last(h).reservations, Last(h).plans, Last(h).clusters)
    requires c.planId in Last(h).plans && Last(h).plans[c.planId].status.Draft?
    requires forall id :: id in c.clusterIds ==> id in shares && shares[id] > 0
    ensures AllFit(Last(h), c.ids, ReservationRows(c.planId, plan, c.clusterIds, shares))
  {
    var (db, rows) := (Last(h), ReservationRows(c.planId, plan, c.clusterIds, shares));
    hide ReservationsOk, ClusterChosen, PairTaken;
    forall i | 0 <= i < |rows| ensures RowFits(db, c.ids[i], rows[i]) {
      PairIsFree(db, c.planId, rows[i].clusterId);
      ChosenIsAvailable(plan, h[c.clustersAt[i]].clusters[c.clusterIds[i]]);
    }
  }

  lemma SubmitsIff(db: Db, s: Submission, audited: bool)
    requires |s.ids| == |s.rows| && AllFit(db, s.ids, s.rows) && s.planId in db.plans && db.plans[s.planId].version == s.expectedPlan
    ensures SubmitTx(db, s, audited).Some? <==>
              && audited && SiteTakes(db.sites, s)
              && forall i :: 0 <= i < |s.rows| ==> !ConflictExists(db.reservations, s.rows[i].clusterId, s.rows[i].window)
  {
    hide AllFit, ConflictExists, Hold, SiteTakes;
  }

  lemma SiteHasRoom(sites: map<Id, Site>, s: Submission)
    requires SitesOk(sites) && s.siteId in sites && s.sitePower > 0
    requires sites[s.siteId].version == s.expectedSite && sites[s.siteId].status.Active?
    ensures SiteTakes(sites, s) <==> sites[s.siteId].reservedKW + s.sitePower <= sites[s.siteId].gridLimitKW
  {
  }

  /** The windows and clusters of the reservation rows are those of the plan and the selection. */
  lemma SameConflicts(reservations: map<Id, Reservation>, planId: Id, plan: Plan, clusterIds: seq<Id>, shares: map<Id, int>)
    requires forall id :: id in clusterIds ==> id in shares
    ensures var rows := ReservationRows(planId, plan, clusterIds, shares);
            (forall i :: 0 <= i < |rows| ==> !ConflictExists(reservations, rows[i].clusterId, rows[i].window))
            <==> (forall i :: 0 <= i < |clusterIds| ==> !ConflictExists(reservations, clusterIds[i], plan.window))
  {
    hide ConflictExists;
    var rows := ReservationRows(planId, plan, clusterIds, shares);
    assert forall i :: 0 <= i < |rows| ==> rows[i].clusterId == clusterIds[i] && rows[i].window == plan.window;
  }

  /**
   * An undisturbed submission commits exactly when it is ready, the site has room, no
   * selected cluster is seen to be taken, and its audit event can be stored.
   */
  lemma SubmitCommitsIff(h: History, c: Call)
    requires IsHistory(h) && c.SubmitPlan? && Undisturbed(h, c)
    ensures TrySubmit(h, c).Some? <==> Ready(h, c) && RoomFor(Last(h), c) && c.audited
  {
    hide IsHistory, Requested, Ready, RoomFor, SubmitTx;
    RequestedIffReady(h, c);
    if Ready(h, c) {
      SubmitTries(h, c);
      ReadySubmitCommitsIff(h, c);
    }
  }

  lemma ReadySubmitCommitsIff(h: History, c: Call)
    requires IsHistory(h) && c.SubmitPlan? && Undisturbed(h, c) && Ready(h, c) && Requested(h, c).Some?
    ensures SubmitTx(Last(h), Requested(h, c).value, c.audited).Some? <==> RoomFor(Last(h), c) && c.audited
  {
    hide IsHistory, Requested, HistoryInv, Inv, Shares, Selectable, ClusterRows, ReservationRows, AllFit, SubmitTx, SiteTakes, ConflictExists,
         SitesOk, ClustersOk, PlansOk, ReservationsOk, Disjoint, SitesConserved, PlansCovered, JobsMatch, JobsOk, Projected, AlarmsUnique,
         LegalStep, Chosen;
    var (db, plan) := (Last(h), Last(h).plans[c.planId]);
    StateIsSound(h, |h| - 1);
    Parts(db);
    ReadyMakes(h, c);
    PlansAreDrafts(h, c);
    hide Ready;
    var shares := Shares(plan, c.clusterIds, ClusterRows(h, c.clusterIds, c.clustersAt), c.order);
    ReadyRowsFit(h, c, plan, shares);
    var s := Requested(h, c).value;
    SubmitsIff(db, s, c.audited);
    SiteHasRoom(db.sites, s);
    SameConflicts(db.reservations, c.planId, plan, c.clusterIds, shares);
  }

  predicate AllPositive(ids: seq<Id>, shares: map<Id, int>) { forall id :: id in ids ==> id in shares && shares[id] > 0 }

  lemma PlansAreDrafts(h: History, c: Call)
    requires c.SubmitPlan? && Undisturbed(h, c) && Ready(h, c)
    ensures c.planId in Last(h).plans && Last(h).plans[c.planId].status.Draft? && Last(h).plans[c.planId].requestedKW > 0
    ensures var plan := Last(h).plans[c.planId];
            && plan.siteId in Last(h).sites && Last(h).sites[plan.siteId].status.Active?
            && Chosen(h, plan, c.clusterIds, c.clustersAt) && |c.ids| == |c.clusterIds|
            && ClustersRead(h, c.clusterIds, c.clustersAt)
            && Selectable(plan, c.clusterIds, ClusterRows(h, c.clusterIds, c.clustersAt), c.order)
            && AllPositive(c.clusterIds, Shares(plan, c.clusterIds, ClusterRows(h, c.clusterIds, c.clustersAt), c.order))
  {
    hide Shares, ClusterRows, Chosen;
    ChosenAreRead(h, Last(h).plans[c.planId], c.clusterIds, c.clustersAt);
  }

  // ----- Approve, Dispatch, Finish -----

  /** An undisturbed approval commits exactly for a submitted plan at the expected version by someone else than its creator. */
  lemma ApproveCommitsIff(h: History, c: Call)
    requires c.ApprovePlan? && c.at == |h| - 1
    ensures TryApprove(h, c).Some? <==>
              && c.planId in Last(h).plans
              && var plan := Last(h).plans[c.planId];
                 plan.version == c.expected && plan.status.Submitted? && c.actor != plan.createdBy
  {
  }

  /** An undisturbed worker's write commits exactly while the worker holds the lease. */
  lemma FinishCommitsIff(h: History, c: Call)
    requires c.FinishJob? && c.at == |h| - 1
    ensures TryFinish(h, c).Some? <==> c.jobId in Last(h).jobs && HoldsLease(Last(h).jobs[c.jobId], c.owner, c.now)
  {
    if c.jobId in Last(h).jobs {
      VerifyIff(Last(h).jobs[c.jobId], c.owner, c.now);
    }
    hide Backoff;
  }

  ghost predicate UndisturbedDispatch(h: History, c: Call)
    requires c.DispatchPlan?
  {
    && c.at == c.listedAt == |h| - 1 && Lists(Last(h).reservations, c.planId, c.listing)
    && |c.ids| == |c.listing| && Distinct(c.ids) && forall id :: id in c.ids ==> id !in Last(h).jobs
  }

  lemma NewJobsFit(db: Db, planId: Id, listing: seq<Id>, ids: seq<Id>, now: Instant)
    requires Inv(db) && planId in db.plans && !db.plans[planId].status.Dispatched?
    requires Lists(db.reservations, planId, listing) && |ids| == |listing| && Distinct(ids) && forall id :: id in ids ==> id !in db.jobs
    ensures AllJobsFit(db, ids, JobRows(planId, listing, db.reservations, now))
  {
    Parts(db);
    hide Inv;
    NoJobsBefore(db.jobs, db.plans, db.reservations, planId);
    hide JobsMatch, JobsOk, JobOk, PlansOk, SitesOk, ClustersOk, SitesConserved, PlansCovered, Disjoint, Projected, AlarmsUnique;
    ListedJobsFit(db, planId, listing, ids, now);
  }

  lemma ListedJobsFit(db: Db, planId: Id, listing: seq<Id>, ids: seq<Id>, now: Instant)
    requires ReservationsOk(db.reservations, db.plans, db.clusters) && planId in db.plans
    requires forall id :: id in db.jobs ==> db.jobs[id].planId != planId
    requires Lists(db.reservations, planId, listing) && |ids| == |listing| && Distinct(ids) && forall id :: id in ids ==> id !in db.jobs
    ensures AllJobsFit(db, ids, JobRows(planId, listing, db.reservations, now))
  {
    var jobs := JobRows(planId, listing, db.reservations, now);
    forall i | 0 <= i < |jobs| ensures JobFits(db, ids[i], jobs[i]) {
      assert ReservationOk(db.reservations[listing[i]], db.plans, db.clusters);
    }
    hide ReservationOk, JobFits;
  }

  /** No job would be of a plan or a cluster without a name. */
  predicate NamedJobs(planId: Id, listing: seq<Id>, reservations: map<Id, Reservation>)
    requires forall id :: id in listing ==> id in reservations
  {
    (listing != [] ==> !Blank(planId)) && forall i :: 0 <= i < |listing| ==> !Blank(reservations[listing[i]].clusterId)
  }

  lemma JobsCreatableIff(planId: Id, listing: seq<Id>, reservations: map<Id, Reservation>, now: Instant)
    requires forall id :: id in listing ==> id in reservations
    ensures JobsCreatable(planId, listing, reservations, now) <==> NamedJobs(planId, listing, reservations)
  {
    hide Blank;
    if listing != [] && JobsCreatable(planId, listing, reservations, now) {
      assert NewJob(planId, reservations[listing[0]].clusterId, MAX_ATTEMPTS, now).Ok?;
    }
  }

  /** An undisturbed dispatch with a complete listing commits exactly for an approved plan at the expected version, if no identifier is blank. */
  lemma DispatchCommitsIff(h: History, c: Call)
    requires IsHistory(h) && c.DispatchPlan? && UndisturbedDispatch(h, c)
    ensures TryDispatch(h, c).Some? <==>
              && c.planId in Last(h).plans && Last(h).plans[c.planId].status.Approved?
              && Last(h).plans[c.planId].version == c.expected && c.audited
              && (forall id :: id in c.listing ==> id in Last(h).reservations) && NamedJobs(c.planId, c.listing, Last(h).reservations)
  {
    hide IsHistory, HistoryInv, Inv, JobsCreatable, NamedJobs, JobRows, AllJobsFit, Lists, Zip;
    ListedExist(Last(h).reservations, c.planId, c.listing);
    JobsCreatableIff(c.planId, c.listing, Last(h).reservations, c.now);
    StateIsSound(h, |h| - 1);
    if c.planId in Last(h).plans && Last(h).plans[c.planId].status.Approved? {
      NewJobsFit(Last(h), c.planId, c.listing, c.ids, c.now);
      ApprovedPlanIsListed(Last(h), c.planId, c.listing);
    }
  }

  lemma ApprovedPlanIsListed(db: Db, planId: Id, listing: seq<Id>)
    requires Inv(db) && planId in db.plans && !db.plans[planId].status.Draft? && Lists(db.reservations, planId, listing)
    ensures listing != []
  {
    Parts(db);
    hide Inv;
    assert PlanOk(db.plans[planId]);
    if listing == [] {
      SumZero(PlanHold(db.reservations, planId));
    }
  }

  // ----- Record -----

  /** A reading beyond the latest sequence of its cluster finds its sequence free. */
  lemma SequenceIsFree(db: Db, id: Id, sequence: int)
    requires Projected(db.clusters, db.snapshots) && id in db.clusters && db.clusters[id].latestSequence < sequence
    ensures !SequenceTaken(db.snapshots, id, sequence)
  {
    assert ProjectedRow(db.clusters[id], id, db.snapshots);
  }

  lemma AppliesIff(row: Cluster, r: Reading, now: Instant)
    requires Acceptable(r, now)
    ensures row.ApplyTelemetry(r.sequence, r.soc, r.observedAt, now).Ok? <==> row.latestSequence < r.sequence
    ensures row.ApplyTelemetry(r.sequence, r.soc, r.observedAt, now).Ok? ==>
              row.ApplyTelemetry(r.sequence, r.soc, r.observedAt, now).value.currentSoc == r.soc
  {
    hide Blank;
  }

  lemma AlarmRowsMatch(siteId: Id, clusterId: Id, conditions: seq<Condition>)
    ensures |AlarmRows(siteId, clusterId, conditions)| == |conditions|
  {
  }

  lemma StoresIff(db: Db, id: Id, s: Snapshot, soc: int, version: int, alarmIds: seq<Id>, alarms: seq<Alarm>, audited: bool)
    requires |alarmIds| == |alarms| && id !in db.snapshots && s.reading.clusterId in db.clusters
    requires db.clusters[s.reading.clusterId].version == version && db.clusters[s.reading.clusterId].latestSequence < s.reading.sequence
    requires 0 <= soc <= 100 && soc == s.reading.soc && !SequenceTaken(db.snapshots, s.reading.clusterId, s.reading.sequence)
    ensures TelemetryTx(db, id, s, soc, version, alarmIds, alarms, audited).Some? <==> audited
  {
    hide RaiseAlarms, SequenceTaken;
  }

  /** An undisturbed reading under fresh identifiers commits exactly if it is acceptable, newer than the cluster row, and judged by valid thresholds. */
  lemma RecordCommitsIff(h: History, c: Call)
    requires IsHistory(h) && c.RecordTelemetry? && c.at == |h| - 1 && c.snapshotId !in Last(h).snapshots
    requires |c.alarmIds| == HowMany(c.reading, c.thresholds)
    ensures var (r, id) := (c.reading, c.reading.clusterId);
            TryRecord(h, c).Some? <==>
              && id in Last(h).clusters && Acceptable(r, c.now) && Last(h).clusters[id].latestSequence < r.sequence
              && Thresholded(c.thresholds) && (HowMany(r, c.thresholds) > 0 ==> !Blank(Last(h).clusters[id].siteId))
              && c.audited
  {
    hide *;
    var (db, r, id) := (Last(h), c.reading, c.reading.clusterId);
    HistoryIsSound(h);
    LastIsSound(h);
    Parts(db);
    ConditionsAreReported(Snapshot(r, c.now), c.thresholds);
    if Recordable(db, r, c.thresholds, c.now) {
      RecordTries(h, c);
      RecordableMeans(db, r, c.thresholds, c.now);
      SequenceIsFree(db, id, r.sequence);
      SocIsStorable(r, c.now);
      AlarmRowsMatch(db.clusters[id].siteId, id, Conditions(Snapshot(r, c.now), c.thresholds));
      var rows := AlarmRows(db.clusters[id].siteId, id, Conditions(Snapshot(r, c.now), c.thresholds));
      StoresIff(db, c.snapshotId, Snapshot(r, c.now), r.soc, db.clusters[id].version, c.alarmIds, rows, c.audited);
    } else {
      RecordIsRefused(h, c);
    }
    RecordableIff(db, r, c.thresholds, c.now);
  }

  predicate Recordable(db: Db, r: Reading, t: Thresholds, now: Instant) {
    r.clusterId in db.clusters && Acceptable(r, now) && db.clusters[r.clusterId].latestSequence < r.sequence && Thresholded(t)
  }

  lemma RecordableMeans(db: Db, r: Reading, t: Thresholds, now: Instant)
    requires Recordable(db, r, t, now)
    ensures r.clusterId in db.clusters && Acceptable(r, now) && db.clusters[r.clusterId].latestSequence < r.sequence
  {
    hide Acceptable, Thresholded;
  }

  lemma RecordableIff(db: Db, r: Reading, t: Thresholds, now: Instant)
    ensures Recordable(db, r, t, now) <==>
              r.clusterId in db.clusters && Acceptable(r, now) && db.clusters[r.clusterId].latestSequence < r.sequence && Thresholded(t)
  {
    hide Acceptable, Thresholded;
  }

  lemma RecordIsRefused(h: History, c: Call)
    requires c.RecordTelemetry? && c.at == |h| - 1 && !Recordable(Last(h), c.reading, c.thresholds, c.now)
    ensures TryRecord(h, c).None?
  {
    var (r, id) := (c.reading, c.reading.clusterId);
    SnapshotIff(r, c.now);
    ValidateIff(c.thresholds);
    if id in Last(h).clusters && Acceptable(r, c.now) { AppliesIff(Last(h).clusters[id], r, c.now); }
    hide Acceptable, Thresholded, NewSnapshot, Thresholds.Validate, Cluster.ApplyTelemetry, Conditions, AlarmRows, TelemetryTx, Blank;
  }

  lemma RecordTries(h: History, c: Call)
    requires c.RecordTelemetry? && c.at == |h| - 1 && Recordable(Last(h), c.reading, c.thresholds, c.now)
    requires |c.alarmIds| == |Conditions(Snapshot(c.reading, c.now), c.thresholds)|
    ensures c.reading.clusterId in Last(h).clusters
    ensures var (r, row) := (c.reading, Last(h).clusters[c.reading.clusterId]);
            var conditions := Conditions(Snapshot(r, c.now), c.thresholds);
            var rows := AlarmRows(row.siteId, r.clusterId, conditions);
            && |rows| == |c.alarmIds|
            && if conditions != [] && Blank(row.siteId) then TryRecord(h, c).None?
               else TryRecord(h, c) == TelemetryTx(Last(h), c.snapshotId, Snapshot(r, c.now), r.soc, row.version, c.alarmIds, rows, c.audited)
  {
    var r := c.reading;
    SnapshotIff(r, c.now);
    ValidateIff(c.thresholds);
    AppliesIff(Last(h).clusters[r.clusterId], r, c.now);
    hide Acceptable, Thresholded, NewSnapshot, Thresholds.Validate, Cluster.ApplyTelemetry, Conditions, TelemetryTx, Blank;
  }

  lemma SocIsStorable(r: Reading, now: Instant)
    requires Acceptable(r, now)
    ensures 0 <= r.soc <= 100
  {
  }}
