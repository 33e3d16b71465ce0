/** Exactly-once dispatch over whole runs. */
module Dispatching {
  import opened Prelude
  import opened Sites
  import opened Plans
  import opened Jobs
  import opened Tables
  import opened Machine
  import opened Invariants
  import opened Preservation
  import opened Dispatches
  import opened Reachable

  /** Before dispatch a plan has no job. */
  lemma NoJobsBeforeDispatch(h: History, k: nat, planId: Id, jobId: Id)
    requires IsHistory(h) && k < |h| && planId in h[k].plans && !h[k].plans[planId].status.Dispatched?
    requires jobId in h[k].jobs
    ensures h[k].jobs[jobId].planId != planId
  {
    hide *;
    var db := h[k];
    StateIsSound(h, k);
    Parts(db);
    NoJobsBefore(db.jobs, db.plans, db.reservations, planId);
  }

  /** The jobs of one cluster in one plan, and the reservations. */
  ghost predicate IsJob(db: Db, j: Id, planId: Id, clusterId: Id) {
    j in db.jobs && db.jobs[j].planId == planId && db.jobs[j].clusterId == clusterId
  }

  ghost predicate IsReservation(db: Db, r: Id, planId: Id, clusterId: Id) {
    r in db.reservations && db.reservations[r].planId == planId && db.reservations[r].clusterId == clusterId
  }

  lemma JobsArePaired(db: Db, planId: Id, clusterId: Id)
    requires JobsMatch(db.jobs, db.plans, db.reservations) && ReservationsOk(db.reservations, db.plans, db.clusters)
    requires planId in db.plans && db.plans[planId].status.Dispatched?
    ensures (exists j :: IsJob(db, j, planId, clusterId)) <==> (exists r :: IsReservation(db, r, planId, clusterId))
    ensures forall i, j :: IsJob(db, i, planId, clusterId) && IsJob(db, j, planId, clusterId) ==> i == j
    ensures forall r, s :: IsReservation(db, r, planId, clusterId) && IsReservation(db, s, planId, clusterId) ==> r == s
  {
    hide ReservationOk;
    assert clusterId in JobClusters(db.jobs, planId) <==> clusterId in HeldClusters(db.reservations, planId);
    if j :| IsJob(db, j, planId, clusterId) {
      assert db.jobs[j].clusterId in JobClusters(db.jobs, planId);
      var r :| r in db.reservations && db.reservations[r].planId == planId && db.reservations[r].clusterId == clusterId;
      assert IsReservation(db, r, planId, clusterId);
    }
    if r :| IsReservation(db, r, planId, clusterId) {
      assert db.reservations[r].clusterId in HeldClusters(db.reservations, planId);
      var j :| j in db.jobs && db.jobs[j].planId == planId && db.jobs[j].clusterId == clusterId;
      assert IsJob(db, j, planId, clusterId);
    }
  }

  /**
   * From dispatch on, jobs and reservations of a plan correspond one to one by cluster: a
   * cluster has a job exactly when it has a reservation, and never two of either.
   */
  lemma JobsAndReservationsCorrespond(h: History, k: nat, planId: Id, clusterId: Id)
    requires IsHistory(h) && k < |h| && planId in h[k].plans && h[k].plans[planId].status.Dispatched?
    ensures var db := h[k];
            && ((exists j :: IsJob(db, j, planId, clusterId)) <==> (exists r :: IsReservation(db, r, planId, clusterId)))
            && (forall i, j :: IsJob(db, i, planId, clusterId) && IsJob(db, j, planId, clusterId) ==> i == j)
            && (forall r, s :: IsReservation(db, r, planId, clusterId) && IsReservation(db, s, planId, clusterId) ==> r == s)
  {
    hide *;
    StateIsSound(h, k);
    Parts(h[k]);
    JobsArePaired(h[k], planId, clusterId);
  }

  /** A plan past its draft has at least one reservation, so a dispatched one has at least one job. */
  lemma SubmittedPlansHoldSomething(h: History, k: nat, planId: Id)
    requires IsHistory(h) && k < |h| && planId in h[k].plans && !h[k].plans[planId].status.Draft?
    ensures exists r :: r in h[k].reservations && h[k].reservations[r].planId == planId
  {
    hide *;
    StateIsSound(h, k);
    Parts(h[k]);
    CoveredPlansHoldSomething(h[k], planId);
  }

  lemma CoveredPlansHoldSomething(db: Db, planId: Id)
    requires PlansOk(db.plans, db.sites) && PlansCovered(db.plans, db.reservations) && planId in db.plans && !db.plans[planId].status.Draft?
    ensures exists r :: r in db.reservations && db.reservations[r].planId == planId
  {
    assert db.plans[planId].requestedKW > 0 by { assert PlanOk(db.plans[planId]); }
    hide PlanOk, PlansOk;
    if forall r :: r in db.reservations ==> db.reservations[r].planId != planId {
      SumZero(PlanHold(db.reservations, planId));
    }
  }

  /** A dispatched plan is never dispatched again: not by a stale reader, nor with any expected version. */
  lemma RedispatchChangesNothing(h: History, c: Call)
    requires IsHistory(h) && c.DispatchPlan? && c.planId in Last(h).plans && Last(h).plans[c.planId].status.Dispatched?
    ensures Exec(h, c) == Last(h)
  {
    hide IsHistory, HistoryInv, TryDispatch, Try, Exec;
    HistoryIsSound(h);
    TryIs(h, c);
    if TryDispatch(h, c).Some? {
      DispatchMeetsReadRow(h, c);
    }
  }

  /** Dispatch commits exactly on an approved plan read as it is, with the version it has. */
  lemma DispatchNeedsTheCurrentVersion(h: History, c: Call)
    requires IsHistory(h) && c.DispatchPlan? && TryDispatch(h, c).Some?
    ensures c.planId in Last(h).plans
    ensures var plan := Last(h).plans[c.planId]; plan.status.Approved? && c.expected == plan.version
  {
    hide IsHistory, HistoryInv, TryDispatch, PlanOk;
    HistoryIsSound(h);
    DispatchMeetsReadRow(h, c);
    PlanRead(h, c.at, c.planId);
    VersionTellsStatus(Last(h).plans[c.planId]);
  }

  /** Over a whole history at most one call dispatches a plan. */
  lemma DispatchCommitsOnce(h: History, i: nat, c: Call, d: Call)
    requires IsHistory(h) && i + 1 < |h| && c.DispatchPlan? && d.DispatchPlan? && c.planId == d.planId
    requires TryDispatch(h[..i + 1], c) == Some(h[i + 1])
    ensures Exec(h, d) == Last(h)
  {
    hide IsHistory, HistoryInv, TryDispatch, GoodStep, Exec;
    DispatchedAfter(h, i, c);
    DispatchedStays(h, i + 1, |h| - 1, c.planId);
    RedispatchChangesNothing(h, d);
  }

  lemma DispatchedAfter(h: History, i: nat, c: Call)
    requires IsHistory(h) && i + 1 < |h| && c.DispatchPlan? && TryDispatch(h[..i + 1], c) == Some(h[i + 1])
    ensures c.planId in h[i + 1].plans && h[i + 1].plans[c.planId].status.Dispatched?
  {
    hide IsHistory, HistoryInv, TryDispatch, Lists, JobRows, Zip, GoodStep, Exec;
    StepAt(h, i);
    DispatchWrites(h[..i + 1], c);
  }

  lemma DispatchedStays(h: History, i: nat, k: nat, planId: Id)
    requires IsHistory(h) && i <= k < |h| && planId in h[i].plans && h[i].plans[planId].status.Dispatched?
    ensures planId in h[k].plans && h[k].plans[planId] == h[i].plans[planId]
  {
    hide *;
    FollowsAt(h, i, k);
    StateIsSound(h, i);
    StateIsSound(h, k);
    DispatchedIsFinal(h[i], h[k], planId);
  }

  /** A dispatched plan has the greatest version the wired life cycle reaches. */
  lemma DispatchedIsFinal(a: Db, b: Db, id: Id)
    requires Inv(a) && Inv(b) && Follows(a, b) && id in a.plans && a.plans[id].status.Dispatched?
    ensures id in b.plans && b.plans[id] == a.plans[id]
  {
    hide *;
    Parts(a);
    Parts(b);
    FollowParts(a, b);
    FinalPlanStays(a.plans, a.sites, b.plans, b.sites, id);
  }

  lemma FinalPlanStays(a: map<Id, Plan>, sitesA: map<Id, Site>, b: map<Id, Plan>, sitesB: map<Id, Site>, id: Id)
    requires PlansFollow(a, b) && PlansOk(a, sitesA) && PlansOk(b, sitesB) && id in a && a[id].status.Dispatched?
    ensures id in b && b[id] == a[id]
  {
    hide PlanOk;
    assert PlanOk(a[id]) && PlanOk(b[id]);
    VersionTellsStatus(a[id]);
    VersionTellsStatus(b[id]);
  }
}
