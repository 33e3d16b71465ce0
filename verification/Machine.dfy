/**
 * The service as a state machine. A call first reads rows, one query at a time, while
 * other calls commit in between; it then computes with the domain functions and commits
 * one transaction. So a call is executed on the history of committed databases: every
 * row it uses comes from some earlier state, chosen by an index, and only its
 * transaction meets the current one. A list of calls is one interleaving, and every
 * interleaving of services and workers is such a list.
 */
module Machine {
  import opened Prelude
  import opened Allocation
  import opened Clock
  import opened Sites
  import opened Plans
  import opened Jobs
  import opened Telemetry
  import opened Tables

  datatype Execution = Done | Failed(cause: string, retryable: bool)

  /** What one call carries: arguments, fresh identifiers, its clock, and when each row was read. */
  datatype Call =
    | CreateSite(siteId: Id, gridLimitKW: int)
    | TransitionSite(siteId: Id, next: SiteStatus, expected: int, at: nat)
    | CreateCluster(clusterId: Id, cluster: NewCluster, at: nat)
    | DegradeCluster(clusterId: Id, at: nat)
    | RecoverCluster(clusterId: Id, at: nat)
    | CreatePlan(planId: Id, plan: NewPlan, now: Instant, at: nat)
    | SubmitPlan(actor: Id, planId: Id, expected: int, clusterIds: seq<Id>, order: seq<Id>, ids: seq<Id>,
                 at: nat, siteAt: nat, clustersAt: seq<nat>, audited: bool)
    | ApprovePlan(actor: Id, planId: Id, expected: int, now: Instant, at: nat)
    | DispatchPlan(planId: Id, expected: int, listing: seq<Id>, ids: seq<Id>, now: Instant,
                   at: nat, listedAt: nat, audited: bool)
    | ClaimJobs(owner: string, limit: nat, candidates: seq<Id>, now: Instant, duration: nat)
    | FinishJob(owner: string, jobId: Id, execution: Execution, now: Instant, at: nat)
    | RecordTelemetry(reading: Reading, snapshotId: Id, alarmIds: seq<Id>, thresholds: Thresholds, now: Instant,
                      at: nat, audited: bool)
    | AcknowledgeAlarm(actor: Id, alarmId: Id, expected: int, at: nat, audited: bool)
    | ResolveAlarm(actor: Id, alarmId: Id, expected: int, thresholds: Thresholds, at: nat, clusterAt: nat, audited: bool)

  type History = h: seq<Db> | h != [] witness [EMPTY]

  function Last(h: History): Db { h[|h| - 1] }

  // ----- What each service computes from the rows it read -----

  function Min(a: int, b: int): int { if a < b then a else b }

  function RatingsOf(rows: seq<Cluster>): seq<int> { seq(|rows|, i requires 0 <= i < |rows| => rows[i].ratedPowerKW) }

  /** Why a selected cluster cannot serve the plan. */
  function Unsuitable(plan: Plan, row: Cluster): Option<Fault> {
    if row.siteId != plan.siteId then Some(Fault(Conflict, "cluster_site_mismatch"))
    else row.Eligible(plan.direction, Min(plan.requestedKW, row.ratedPowerKW))
  }

  /** The cluster stands ready at the plan's site, with power to offer, and may still be charged or discharged. */
  predicate ClusterChosen(plan: Plan, row: Cluster) {
    && row.siteId == plan.siteId && row.status.Available? && 0 < plan.requestedKW && 0 < row.ratedPowerKW
    && match plan.direction
       case Charge => row.currentSoc < row.maxSoc
       case Discharge => row.minSoc < row.currentSoc
  }

  /** Each fault stands for the first obstacle met. */
  predicate Explains(fault: Fault, plan: Plan, row: Cluster) {
    var here := row.siteId == plan.siteId;
    var free := here && row.status.Available?;
    var able := free && 0 < plan.requestedKW && 0 < row.ratedPowerKW;
    && fault.kind.Conflict?
    && (fault.code == "cluster_site_mismatch" <==> !here)
    && (fault.code == "cluster_unavailable" <==> here && !free)
    && (fault.code == "cluster_power_exceeded" <==> free && !able)
    && (fault.code == "cluster_soc_high" <==> able && plan.direction.Charge? && row.currentSoc >= row.maxSoc)
    && (fault.code == "cluster_soc_low" <==> able && plan.direction.Discharge? && row.currentSoc <= row.minSoc)
  }

  /** A cluster that is not suitable is refused with its fault, and every other one is chosen. */
  lemma UnsuitableIff(plan: Plan, row: Cluster)
    ensures Unsuitable(plan, row).None? <==> ClusterChosen(plan, row)
    ensures Unsuitable(plan, row).Some? ==> Explains(Unsuitable(plan, row).value, plan, row)
  {
    var (mismatch, busy, power) := ("cluster_site_mismatch", "cluster_unavailable", "cluster_power_exceeded");
    var (high, low) := ("cluster_soc_high", "cluster_soc_low");
    assert mismatch[9] != high[9] && mismatch[9] != low[9] && high[12] != low[12];
    assert busy[8] != power[8] && busy[8] != high[8] && power[8] != high[8] && high[8] == low[8] == mismatch[8];
  }

  /** The checks of the loop over the selected clusters, and those of the allocation. */
  predicate RowPasses(plan: Plan, id: Id, row: Cluster) {
    Unsuitable(plan, row).None? && ValidRating(id, row.ratedPowerKW)
  }

  predicate ClusterAccepted(plan: Plan, id: Id, row: Cluster) {
    ClusterChosen(plan, row) && !Blank(id)
  }

  lemma RowsPassIff(plan: Plan, clusterIds: seq<Id>, rows: seq<Cluster>)
    requires |clusterIds| == |rows|
    ensures (forall i :: 0 <= i < |rows| ==> RowPasses(plan, clusterIds[i], rows[i]))
            <==> (forall i :: 0 <= i < |rows| ==> ClusterAccepted(plan, clusterIds[i], rows[i]))
  {
    hide ClusterChosen, Unsuitable, Blank, Explains;
    forall i | 0 <= i < |rows| ensures RowPasses(plan, clusterIds[i], rows[i]) <==> ClusterAccepted(plan, clusterIds[i], rows[i]) {
      UnsuitableIff(plan, rows[i]);
      if ClusterChosen(plan, rows[i]) { ChosenIsRated(plan, rows[i]); }
    }
  }

  lemma ChosenIsRated(plan: Plan, row: Cluster)
    requires ClusterChosen(plan, row)
    ensures row.ratedPowerKW > 0
  {
  }

  /** The reservation rows of a submission, one per selected cluster. */
  function ReservationRows(planId: Id, plan: Plan, clusterIds: seq<Id>, shares: map<Id, int>): seq<Reservation>
    requires forall id :: id in clusterIds ==> id in shares
  {
    seq(|clusterIds|, i requires 0 <= i < |clusterIds| =>
      Reservation(planId, clusterIds[i], shares[clusterIds[i]], plan.window, Held))
  }

  /** Submit in internal/service/dispatch.go, between its reads and its transaction. */
  function Prepare(actor: Id, planId: Id, expected: int, plan: Plan, site: Site, clusterIds: seq<Id>, rows: seq<Cluster>,
                   order: seq<Id>, ids: seq<Id>): (s: Option<Submission>)
    requires |clusterIds| == |rows| == |ids|
    ensures s.Some? ==> |s.value.ids| == |s.value.rows|
  {
    if plan.createdBy != actor || plan.version != expected || !site.CanAcceptPlans() then None
    else if !Distinct(clusterIds) || !(forall i :: 0 <= i < |rows| ==> RowPasses(plan, clusterIds[i], rows[i])) then None
    else
      var ratings := Zip(clusterIds, RatingsOf(rows));
      if clusterIds == [] || plan.requestedKW <= 0 || !Enumerates(order, ratings.Keys) then None
      else
        assert forall id :: id in order ==> id in ratings.Keys;
        var totalRating := TotalAlong(order, ratings);
        if plan.requestedKW > totalRating then None
        else
          var shares := Allocate(order, ratings, plan.requestedKW, totalRating);
          var submitted := plan.Submit(|clusterIds|, plan.requestedKW);
          if submitted.Err? || plan.window.start >= plan.window.end || Blank(planId) then None
          else if !(forall i :: 0 <= i < |clusterIds| ==> clusterIds[i] in shares && shares[clusterIds[i]] > 0) then None
          else
            Some(Submission(planId, submitted.value, plan.version, ids,
                            ReservationRows(planId, plan, clusterIds, shares), plan.siteId, plan.requestedKW, site.version))
  }

  /** `listing` is the result of ReservationsByPlan: every reservation of the plan once. */
  predicate Lists(reservations: map<Id, Reservation>, planId: Id, listing: seq<Id>) {
    && Distinct(listing)
    && (forall id :: id in listing ==> id in reservations && reservations[id].planId == planId)
    && (forall id | id in reservations :: reservations[id].planId == planId ==> id in listing)
  }

  const MAX_ATTEMPTS := 5

  /** NewJob refuses none of the listed reservations. */
  predicate JobsCreatable(planId: Id, listing: seq<Id>, reservations: map<Id, Reservation>, now: Instant)
    requires forall id :: id in listing ==> id in reservations
  {
    forall i :: 0 <= i < |listing| ==> NewJob(planId, reservations[listing[i]].clusterId, MAX_ATTEMPTS, now).Ok?
  }

  function JobRows(planId: Id, listing: seq<Id>, reservations: map<Id, Reservation>, now: Instant): seq<Job>
    requires forall id :: id in listing ==> id in reservations
  {
    seq(|listing|, i requires 0 <= i < |listing| =>
      Job(planId, reservations[listing[i]].clusterId, Pending, 0, MAX_ATTEMPTS, now, "", None, "", 1))
  }

  function Finished(job: Job, owner: string, execution: Execution, now: Instant): Result<Job> {
    match execution
    case Done => job.Succeed(owner, now)
    case Failed(cause, retryable) => job.Fail(owner, cause, retryable, now, SECOND)
  }

  function AlarmRows(siteId: Id, clusterId: Id, conditions: seq<Condition>): seq<Alarm> {
    seq(|conditions|, i requires 0 <= i < |conditions| =>
      Alarm(siteId, clusterId, conditions[i].kind, conditions[i].severity, Open, conditions[i].fingerprint, "", "", 1))
  }

  // ----- Calls -----

  /** Each selected cluster was read from some earlier state. */
  predicate ClustersRead(h: History, clusterIds: seq<Id>, clustersAt: seq<nat>) {
    && |clusterIds| == |clustersAt|
    && forall i :: 0 <= i < |clusterIds| ==> clustersAt[i] < |h| && clusterIds[i] in h[clustersAt[i]].clusters
  }

  function ClusterRows(h: History, clusterIds: seq<Id>, clustersAt: seq<nat>): (rows: seq<Cluster>)
    requires ClustersRead(h, clusterIds, clustersAt)
    ensures |rows| == |clusterIds|
  {
    seq(|clusterIds|, i requires 0 <= i < |clusterIds| => h[clustersAt[i]].clusters[clusterIds[i]])
  }

  /** What Submit computes from the plan, site and cluster rows it read, each at its own time. */
  function Requested(h: History, c: Call): (s: Option<Submission>)
    requires c.SubmitPlan?
    ensures s.Some? ==> |s.value.ids| == |s.value.rows|
  {
    if c.at >= |h| || c.siteAt >= |h| || |c.ids| != |c.clusterIds| || c.planId !in h[c.at].plans then None
    else
      var plan := h[c.at].plans[c.planId];
      if plan.siteId !in h[c.siteAt].sites || !ClustersRead(h, c.clusterIds, c.clustersAt) then None
      else
        Prepare(c.actor, c.planId, c.expected, plan, h[c.siteAt].sites[plan.siteId], c.clusterIds,
                ClusterRows(h, c.clusterIds, c.clustersAt), c.order, c.ids)
  }

  function TrySubmit(h: History, c: Call): Option<Db>
    requires c.SubmitPlan?
  {
    var s := Requested(h, c);
    if s.None? then None else SubmitTx(Last(h), s.value, c.audited)
  }

  function TryApprove(h: History, c: Call): Option<Db>
    requires c.ApprovePlan?
  {
    if c.at >= |h| || c.planId !in h[c.at].plans then None
    else
      var approved := h[c.at].plans[c.planId].Approve(c.actor, c.expected, c.now);
      if approved.Err? then None else UpdatePlanTx(Last(h), c.planId, approved.value, c.expected)
  }

  /** `expected` is the caller's; it is never compared with the version that was read. */
  function TryDispatch(h: History, c: Call): Option<Db>
    requires c.DispatchPlan?
  {
    if c.at >= |h| || c.listedAt >= |h| || c.planId !in h[c.at].plans || |c.ids| != |c.listing| then None
    else if !Lists(h[c.listedAt].reservations, c.planId, c.listing) then None
    else if !JobsCreatable(c.planId, c.listing, h[c.listedAt].reservations, c.now) then None
    else
      var dispatched := h[c.at].plans[c.planId].Dispatch(|c.listing|, |c.listing|);
      if dispatched.Err? then None
      else
        var jobs := JobRows(c.planId, c.listing, h[c.listedAt].reservations, c.now);
        DispatchTx(Last(h), c.planId, dispatched.value, c.expected, c.ids, jobs, c.audited)
  }

  /** A worker finishes the job as it held it, and the write is fenced by that row's version. */
  function TryFinish(h: History, c: Call): Option<Db>
    requires c.FinishJob?
  {
    if c.at >= |h| || c.jobId !in h[c.at].jobs then None
    else
      var held := h[c.at].jobs[c.jobId];
      var finished := Finished(held, c.owner, c.execution, c.now);
      if finished.Err? then None else CompleteJobTx(Last(h), c.jobId, finished.value, held.version)
  }

  function TryRecord(h: History, c: Call): Option<Db>
    requires c.RecordTelemetry?
  {
    var id := c.reading.clusterId;
    if c.at >= |h| || id !in h[c.at].clusters then None
    else
      var cluster := h[c.at].clusters[id];
      var snapshot := NewSnapshot(c.reading, c.now);
      var updated := cluster.ApplyTelemetry(c.reading.sequence, c.reading.soc, c.reading.observedAt, c.now);
      if snapshot.Err? || updated.Err? || c.thresholds.Validate().Some? then None
      else
        var conditions := Conditions(snapshot.value, c.thresholds);
        if |conditions| != |c.alarmIds| || (conditions != [] && Blank(cluster.siteId)) then None
        else TelemetryTx(Last(h), c.snapshotId, snapshot.value, updated.value.currentSoc, cluster.version,
                         c.alarmIds, AlarmRows(cluster.siteId, id, conditions), c.audited)
  }

  function TryResolve(h: History, c: Call): Option<Db>
    requires c.ResolveAlarm?
  {
    if c.at >= |h| || c.clusterAt >= |h| || c.alarmId !in h[c.at].alarms then None
    else
      var alarm := h[c.at].alarms[c.alarmId];
      if alarm.clusterId !in h[c.clusterAt].clusters then None
      else
        var cluster := h[c.clusterAt].clusters[alarm.clusterId];
        var healthy := c.thresholds.lowSoc < cluster.currentSoc < c.thresholds.highSoc;
        var resolved := alarm.Resolve(c.actor, c.expected, healthy);
        if cluster.latestTelemetryAt.None? || resolved.Err? then None
        else UpdateAlarmTx(Last(h), c.alarmId, resolved.value, c.expected, c.audited)
  }

  function TryAcknowledge(h: History, c: Call): Option<Db>
    requires c.AcknowledgeAlarm?
  {
    if c.at >= |h| || c.alarmId !in h[c.at].alarms then None
    else
      var changed := h[c.at].alarms[c.alarmId].Acknowledge(c.actor, c.expected);
      if changed.Err? then None else UpdateAlarmTx(Last(h), c.alarmId, changed.value, c.expected, c.audited)
  }

  function TryTransition(h: History, c: Call): Option<Db>
    requires c.TransitionSite?
  {
    if c.at >= |h| || c.siteId !in h[c.at].sites || h[c.at].sites[c.siteId].version != c.expected then None
    else
      var changed := h[c.at].sites[c.siteId].Transition(c.next);
      if changed.Err? then None else UpdateSiteTx(Last(h), c.siteId, changed.value, c.expected)
  }

  /** Status maintenance of a cluster row through UpdateCluster. */
  function TryMaintain(h: History, c: Call): Option<Db>
    requires c.DegradeCluster? || c.RecoverCluster?
  {
    if c.at >= |h| || c.clusterId !in h[c.at].clusters then None
    else
      var row := h[c.at].clusters[c.clusterId];
      var changed := if c.DegradeCluster? then Ok(row.MarkDegraded()) else row.Recover();
      if changed.Err? then None else UpdateClusterTx(Last(h), c.clusterId, changed.value, row.version)
  }

  function TryCreateCluster(h: History, c: Call): Option<Db>
    requires c.CreateCluster?
  {
    var created := Sites.CreateCluster(c.cluster);
    if c.at >= |h| || c.cluster.siteId !in h[c.at].sites || h[c.at].sites[c.cluster.siteId].status.Retired? then None
    else if created.Err? then None
    else InsertClusterTx(Last(h), c.clusterId, created.value)
  }

  function TryCreatePlan(h: History, c: Call): Option<Db>
    requires c.CreatePlan?
  {
    var created := Plans.CreatePlan(c.plan, c.now);
    if c.at >= |h| || c.plan.siteId !in h[c.at].sites || created.Err? then None
    else InsertPlanTx(Last(h), c.planId, created.value)
  }

  function Try(h: History, c: Call): Option<Db> {
    match c
    case CreateSite(siteId, limit) =>
      var created := Sites.CreateSite(limit);
      if created.Err? then None else InsertSiteTx(Last(h), siteId, created.value)
    case TransitionSite(_, _, _, _) => TryTransition(h, c)
    case CreateCluster(_, _, _) => TryCreateCluster(h, c)
    case DegradeCluster(_, _) => TryMaintain(h, c)
    case RecoverCluster(_, _) => TryMaintain(h, c)
    case CreatePlan(_, _, _, _) => TryCreatePlan(h, c)
    case SubmitPlan(_, _, _, _, _, _, _, _, _, _) => TrySubmit(h, c)
    case ApprovePlan(_, _, _, _, _) => TryApprove(h, c)
    case DispatchPlan(_, _, _, _, _, _, _, _) => TryDispatch(h, c)
    case ClaimJobs(owner, limit, candidates, now, duration) =>
      if Selected(Last(h).jobs, now, limit, candidates) then Some(ClaimTx(Last(h), owner, candidates, now, duration)) else None
    case FinishJob(_, _, _, _, _) => TryFinish(h, c)
    case RecordTelemetry(_, _, _, _, _, _, _) => TryRecord(h, c)
    case AcknowledgeAlarm(_, _, _, _, _) => TryAcknowledge(h, c)
    case ResolveAlarm(_, _, _, _, _, _, _) => TryResolve(h, c)
  }

  /** The database after one more call: its transaction, or no change at all. */
  function Exec(h: History, c: Call): Db { Commit(Last(h), Try(h, c)) }

  /**
   * What the caller is told by the services that insert their audit event after the
   * write, in a statement of its own: success needs both.
   */
  predicate ReportsSuccess(h: History, c: Call, audited: bool) { Try(h, c).Some? && audited }

  /** Which transaction a call attempts. */
  lemma TryIs(h: History, c: Call)
    ensures Exec(h, c) == Commit(Last(h), Try(h, c))
    ensures c.SubmitPlan? ==> Try(h, c) == TrySubmit(h, c)
    ensures c.ApprovePlan? ==> Try(h, c) == TryApprove(h, c)
    ensures c.DispatchPlan? ==> Try(h, c) == TryDispatch(h, c)
    ensures c.FinishJob? ==> Try(h, c) == TryFinish(h, c)
    ensures c.RecordTelemetry? ==> Try(h, c) == TryRecord(h, c)
    ensures c.AcknowledgeAlarm? ==> Try(h, c) == TryAcknowledge(h, c)
    ensures c.ResolveAlarm? ==> Try(h, c) == TryResolve(h, c)
    ensures c.TransitionSite? ==> Try(h, c) == TryTransition(h, c)
    ensures c.CreateCluster? ==> Try(h, c) == TryCreateCluster(h, c)
    ensures c.CreatePlan? ==> Try(h, c) == TryCreatePlan(h, c)
  {
    hide TrySubmit, TryApprove, TryDispatch, TryFinish, TryRecord, TryResolve, TryAcknowledge, TryTransition, TryMaintain,
         TryCreateCluster, TryCreatePlan;
  }

  /** The history after one more call. */
  function Extend(h: History, c: Call): History { h + [Exec(h, c)] }

  /** State k is the outcome of some call on the states before it. */
  ghost predicate IsStep(h: History, k: nat)
    requires 0 < k < |h|
  {
    exists c :: Leads(h[..k], c, h[k])
  }

  predicate Leads(h: History, c: Call, db: Db) { db == Exec(h, c) }

  /** The committed states of some interleaving, from the empty database on. */
  ghost predicate IsHistory(h: History) {
    h[0] == EMPTY && forall k :: 0 < k < |h| ==> IsStep(h, k)
  }

  /** Every committed state of an interleaving, from the empty database on. */
  function Run(calls: seq<Call>): (h: History)
    ensures |h| == |calls| + 1
  {
    if calls == [] then [EMPTY]
    else
      var h := Run(calls[..|calls| - 1]);
      h + [Exec(h, calls[|calls| - 1])]
  }
}
