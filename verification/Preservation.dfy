/**
 * Every call keeps the invariants and writes rows legally. Each proof has two halves:
 * what the committed transaction writes, given what was read, and why that write is sound
 * for the current tables. `hide` keeps definitions that a proof does not look into out of it.
 */
module Preservation {
  import opened Prelude
  import opened Clock
  import opened Sites
  import opened Plans
  import opened Jobs
  import opened Telemetry
  import opened Tables
  import opened Machine
  import opened Invariants

  // ----- Taking the invariant apart and putting it together -----

  lemma Parts(a: Db)
    requires Inv(a)
    ensures SitesOk(a.sites) && ClustersOk(a.clusters, a.sites) && PlansOk(a.plans, a.sites)
    ensures ReservationsOk(a.reservations, a.plans, a.clusters) && Disjoint(a.reservations)
    ensures SitesConserved(a.sites, a.plans, a.reservations) && PlansCovered(a.plans, a.reservations)
    ensures JobsMatch(a.jobs, a.plans, a.reservations) && JobsOk(a.jobs)
    ensures Projected(a.clusters, a.snapshots) && AlarmsUnique(a.alarms)
    ensures LegalStep(a, a)
  {
  }

  lemma Whole(a: Db, b: Db)
    requires SitesOk(b.sites) && ClustersOk(b.clusters, b.sites) && PlansOk(b.plans, b.sites)
    requires ReservationsOk(b.reservations, b.plans, b.clusters) && Disjoint(b.reservations)
    requires SitesConserved(b.sites, b.plans, b.reservations) && PlansCovered(b.plans, b.reservations)
    requires JobsMatch(b.jobs, b.plans, b.reservations) && JobsOk(b.jobs)
    requires Projected(b.clusters, b.snapshots) && AlarmsUnique(b.alarms)
    requires LegalStep(a, b)
    ensures GoodStep(a, b)
  {
    hide SitesOk, ClustersOk, PlansOk, ReservationsOk, Disjoint, SitesConserved, PlansCovered, JobsMatch, JobsOk,
         Projected, AlarmsUnique, LegalStep;
  }

  lemma SitesMove(a: Db, sites: map<Id, Site>)
    requires SitesStep(a.sites, sites)
    ensures LegalStep(a, a.(sites := sites))
  {
    NothingHappens(a);
    hide SitesStep, ClustersStep, PlansStep, JobsStep, AlarmsStep, Grows, SnapshotsStep;
  }

  lemma ClustersMove(a: Db, clusters: map<Id, Cluster>)
    requires ClustersStep(a.clusters, clusters)
    ensures LegalStep(a, a.(clusters := clusters))
  {
    NothingHappens(a);
    hide SitesStep, ClustersStep, PlansStep, JobsStep, AlarmsStep, Grows, SnapshotsStep;
  }

  lemma PlansMove(a: Db, plans: map<Id, Plan>)
    requires PlansStep(a.plans, plans)
    ensures LegalStep(a, a.(plans := plans))
  {
    NothingHappens(a);
    hide SitesStep, ClustersStep, PlansStep, JobsStep, AlarmsStep, Grows, SnapshotsStep;
  }

  lemma JobsMove(a: Db, jobs: map<Id, Job>)
    requires JobsStep(a.jobs, jobs)
    ensures LegalStep(a, a.(jobs := jobs))
  {
    NothingHappens(a);
    hide SitesStep, ClustersStep, PlansStep, JobsStep, AlarmsStep, Grows, SnapshotsStep;
  }

  lemma AlarmsMove(a: Db, alarms: map<Id, Alarm>)
    requires AlarmsStep(a.alarms, alarms)
    ensures LegalStep(a, a.(alarms := alarms))
  {
    NothingHappens(a);
    hide SitesStep, ClustersStep, PlansStep, JobsStep, AlarmsStep, Grows, SnapshotsStep;
  }

  // ----- Sites -----

  /** Rows that name a site are not troubled by more sites. */
  lemma MoreSites(a: map<Id, Site>, b: map<Id, Site>, clusters: map<Id, Cluster>, plans: map<Id, Plan>)
    requires a.Keys <= b.Keys && ClustersOk(clusters, a) && PlansOk(plans, a)
    ensures ClustersOk(clusters, b) && PlansOk(plans, b)
  {
    hide PlanOk;
  }

  lemma NewSiteIsConserved(a: Db, id: Id, site: Site)
    requires PlansOk(a.plans, a.sites) && SitesConserved(a.sites, a.plans, a.reservations)
    requires id !in a.sites && site.reservedKW == 0
    ensures SitesConserved(a.sites[id := site], a.plans, a.reservations)
  {
    hide PlanOk;
    SumZero(PlanLoad(a.plans, id));
    SumZero(ReservationLoad(a.reservations, a.plans, id));
  }

  lemma SiteCreated(a: Db, id: Id, site: Site, limit: int)
    requires Inv(a) && id !in a.sites && Sites.CreateSite(limit) == Ok(site)
    ensures GoodStep(a, a.(sites := a.sites[id := site]))
  {
    hide *;
    Parts(a);
    var b := a.sites[id := site];
    NewSiteIsOk(a.sites, id, site, limit);
    MoreSites(a.sites, b, a.clusters, a.plans);
    NewSiteIsConserved(a, id, site);
    SitesMove(a, b);
    Whole(a, a.(sites := b));
  }

  lemma NewSiteIsOk(sites: map<Id, Site>, id: Id, site: Site, limit: int)
    requires SitesOk(sites) && id !in sites && Sites.CreateSite(limit) == Ok(site)
    ensures SitesOk(sites[id := site]) && SitesStep(sites, sites[id := site]) && sites.Keys <= sites[id := site].Keys
    ensures site.reservedKW == 0
  {
    hide LegalSiteWrite;
  }

  lemma SiteRowChanges(sites: map<Id, Site>, id: Id, next: SiteStatus, site: Site)
    requires SitesOk(sites) && id in sites && sites[id].Transition(next) == Ok(site)
    ensures SitesOk(sites[id := site]) && SitesStep(sites, sites[id := site]) && sites.Keys == sites[id := site].Keys
    ensures forall s :: s in sites ==> sites[s].reservedKW == sites[id := site][s].reservedKW
  {
    assert LegalSiteWrite(sites[id], site);
    hide LegalSiteWrite;
  }

  lemma SameReservedIsConserved(a: map<Id, Site>, b: map<Id, Site>, plans: map<Id, Plan>, reservations: map<Id, Reservation>)
    requires SitesConserved(a, plans, reservations) && a.Keys == b.Keys
    requires forall s :: s in a ==> a[s].reservedKW == b[s].reservedKW
    ensures SitesConserved(b, plans, reservations)
  {
  }

  lemma SiteTransitioned(a: Db, id: Id, next: SiteStatus, site: Site)
    requires Inv(a) && id in a.sites && a.sites[id].Transition(next) == Ok(site)
    ensures GoodStep(a, a.(sites := a.sites[id := site]))
  {
    Parts(a);
    hide *;
    var b := a.sites[id := site];
    SiteRowChanges(a.sites, id, next, site);
    MoreSites(a.sites, b, a.clusters, a.plans);
    SameReservedIsConserved(a.sites, b, a.plans, a.reservations);
    SitesMove(a, b);
    Whole(a, a.(sites := b));
  }

  lemma CreateSiteKeeps(h: History, c: Call)
    requires HistoryInv(h) && c.CreateSite? && Try(h, c).Some?
    ensures GoodStep(Last(h), Try(h, c).value)
  {
    LastIsSound(h);
    hide HistoryInv, Inv, GoodStep;
    SiteCreated(Last(h), c.siteId, Sites.CreateSite(c.gridLimitKW).value, c.gridLimitKW);
  }

  lemma TransitionSiteKeeps(h: History, c: Call)
    requires HistoryInv(h) && c.TransitionSite? && TryTransition(h, c).Some?
    ensures GoodStep(Last(h), TryTransition(h, c).value)
  {
    SiteRead(h, c.at, c.siteId);
    LastIsSound(h);
    hide HistoryInv, Inv, GoodStep;
    SiteTransitioned(Last(h), c.siteId, c.next, Last(h).sites[c.siteId].Transition(c.next).value);
  }

  // ----- Clusters -----

  /** Writing one cluster row leaves the other rows projected. */
  lemma ProjectionElsewhere(a: map<Id, Cluster>, b: map<Id, Cluster>, snapshots: map<Id, Snapshot>, id: Id)
    requires Projected(a, snapshots) && id in b && b == a[id := b[id]] && ProjectedRow(b[id], id, snapshots)
    ensures Projected(b, snapshots)
  {
    forall c | c in b ensures ProjectedRow(b[c], c, snapshots) {
      if c != id { assert ProjectedRow(a[c], c, snapshots); }
    }
  }

  lemma ReservationsStayOk(reservations: map<Id, Reservation>, plans: map<Id, Plan>, a: map<Id, Cluster>, b: map<Id, Cluster>)
    requires ReservationsOk(reservations, plans, a)
    requires forall id :: id in a ==> id in b && SameCluster(a[id], b[id])
    ensures ReservationsOk(reservations, plans, b)
  {
    forall r | r in reservations ensures ReservationOk(reservations[r], plans, b) {
      assert ReservationOk(reservations[r], plans, a);
    }
  }

  lemma OthersAreSame(clusters: map<Id, Cluster>, id: Id, row: Cluster)
    requires id in clusters ==> SameCluster(clusters[id], row)
    ensures forall x :: x in clusters ==> SameCluster(clusters[x], clusters[id := row][x])
  {
  }

  /** A cluster row that keeps its fixed columns, and is still projected, keeps the whole invariant. */
  lemma ClusterRowWritten(a: Db, id: Id, row: Cluster)
    requires Inv(a) && ClustersStep(a.clusters, a.clusters[id := row]) && ProjectedRow(row, id, a.snapshots)
    requires ClustersOk(a.clusters[id := row], a.sites)
    requires id in a.clusters ==> SameCluster(a.clusters[id], row)
    ensures GoodStep(a, a.(clusters := a.clusters[id := row]))
  {
    hide *;
    Parts(a);
    var b := a.clusters[id := row];
    OthersAreSame(a.clusters, id, row);
    ProjectionElsewhere(a.clusters, b, a.snapshots, id);
    ReservationsStayOk(a.reservations, a.plans, a.clusters, b);
    ClustersMove(a, b);
    Whole(a, a.(clusters := b));
  }

  lemma NewClusterIsOk(clusters: map<Id, Cluster>, sites: map<Id, Site>, snapshots: map<Id, Snapshot>, id: Id, cluster: Cluster, input: NewCluster)
    requires ClustersOk(clusters, sites) && Projected(clusters, snapshots) && id !in clusters
    requires Sites.CreateCluster(input) == Ok(cluster) && cluster.siteId in sites
    ensures ClustersOk(clusters[id := cluster], sites) && ClustersStep(clusters, clusters[id := cluster])
    ensures ProjectedRow(cluster, id, snapshots)
  {
    hide LegalClusterWrite;
    NewRowIsProjected(clusters, snapshots, id, cluster);
    hide Projected, ProjectedRow;
  }

  lemma NewRowIsProjected(clusters: map<Id, Cluster>, snapshots: map<Id, Snapshot>, id: Id, cluster: Cluster)
    requires Projected(clusters, snapshots) && id !in clusters && cluster.latestSequence == 0 && cluster.latestTelemetryAt.None?
    ensures ProjectedRow(cluster, id, snapshots)
  {
  }

  lemma ClusterCreated(a: Db, id: Id, cluster: Cluster, input: NewCluster)
    requires Inv(a) && id !in a.clusters && Sites.CreateCluster(input) == Ok(cluster) && cluster.siteId in a.sites
    ensures GoodStep(a, a.(clusters := a.clusters[id := cluster]))
  {
    Parts(a);
    hide *;
    NewClusterIsOk(a.clusters, a.sites, a.snapshots, id, cluster, input);
    ClusterRowWritten(a, id, cluster);
  }

  /** A status write leaves the telemetry columns alone. */
  lemma StatusWrite(clusters: map<Id, Cluster>, sites: map<Id, Site>, id: Id, row: Cluster)
    requires ClustersOk(clusters, sites) && id in clusters
    requires row == clusters[id].MarkDegraded() || clusters[id].Recover() == Ok(row)
    ensures ClustersStep(clusters, clusters[id := row]) && ClustersOk(clusters[id := row], sites)
    ensures SameCluster(clusters[id], row) && row.latestSequence == clusters[id].latestSequence
    ensures row.currentSoc == clusters[id].currentSoc && row.latestTelemetryAt == clusters[id].latestTelemetryAt
  {
    assert LegalClusterWrite(clusters[id], row);
    hide LegalClusterWrite;
  }

  lemma SameTelemetryStaysProjected(a: Cluster, b: Cluster, id: Id, snapshots: map<Id, Snapshot>)
    requires ProjectedRow(a, id, snapshots)
    requires a.latestSequence == b.latestSequence && a.currentSoc == b.currentSoc && a.latestTelemetryAt == b.latestTelemetryAt
    ensures ProjectedRow(b, id, snapshots)
  {
    if a.latestSequence != 0 {
      var s :| s in snapshots && IsLatest(snapshots[s].reading, a, id);
      assert IsLatest(snapshots[s].reading, b, id);
    }
  }

  lemma StatusWritten(a: Db, id: Id, row: Cluster)
    requires Inv(a) && id in a.clusters
    requires row == a.clusters[id].MarkDegraded() || a.clusters[id].Recover() == Ok(row)
    ensures GoodStep(a, a.(clusters := a.clusters[id := row]))
  {
    Parts(a);
    assert ProjectedRow(a.clusters[id], id, a.snapshots);
    hide *;
    StatusWrite(a.clusters, a.sites, id, row);
    SameTelemetryStaysProjected(a.clusters[id], row, id, a.snapshots);
    ClusterRowWritten(a, id, row);
  }

  lemma CreateClusterKeeps(h: History, c: Call)
    requires HistoryInv(h) && c.CreateCluster? && TryCreateCluster(h, c).Some?
    ensures GoodStep(Last(h), TryCreateCluster(h, c).value)
  {
    LastIsSound(h);
    hide HistoryInv, Inv, GoodStep;
    ClusterCreated(Last(h), c.clusterId, Sites.CreateCluster(c.cluster).value, c.cluster);
  }

  lemma ClusterUpdateWrites(db: Db, id: Id, row: Cluster, changed: Cluster)
    requires UpdateClusterTx(db, id, changed, row.version).Some?
    requires id in db.clusters && (row == db.clusters[id] || row.version < db.clusters[id].version)
    requires changed == row.MarkDegraded() || row.Recover() == Ok(changed)
    ensures row == db.clusters[id] && UpdateClusterTx(db, id, changed, row.version) == Some(db.(clusters := db.clusters[id := changed]))
  {
  }

  lemma MaintainKeeps(h: History, c: Call)
    requires HistoryInv(h) && (c.DegradeCluster? || c.RecoverCluster?) && TryMaintain(h, c).Some?
    ensures GoodStep(Last(h), TryMaintain(h, c).value)
  {
    ClusterRead(h, c.at, c.clusterId);
    LastIsSound(h);
    hide HistoryInv, Inv, GoodStep, SameCluster, UpdateClusterTx;
    var row := h[c.at].clusters[c.clusterId];
    var changed := if c.DegradeCluster? then row.MarkDegraded() else row.Recover().value;
    ClusterUpdateWrites(Last(h), c.clusterId, row, changed);
    StatusWritten(Last(h), c.clusterId, changed);
  }

  // ----- Plans -----

  lemma DraftAddsNoLoad(sites: map<Id, Site>, plans: map<Id, Plan>, reservations: map<Id, Reservation>, id: Id, plan: Plan)
    requires SitesConserved(sites, plans, reservations) && id !in plans && plan.status.Draft?
    requires forall r :: r in reservations ==> reservations[r].planId in plans
    ensures SitesConserved(sites, plans[id := plan], reservations)
  {
    hide Sum;
    forall s | s in sites ensures Sum(PlanLoad(plans[id := plan], s)) == Sum(PlanLoad(plans, s)) {
      DraftWeighsNothing(plans, id, plan, s);
    }
    forall s | s in sites ensures ReservationLoad(reservations, plans[id := plan], s) == ReservationLoad(reservations, plans, s) {
      OtherPlansLoad(reservations, plans, id, plan, s);
    }
    hide PlanLoad, ReservationLoad;
  }

  lemma DraftWeighsNothing(plans: map<Id, Plan>, id: Id, plan: Plan, s: Id)
    requires id !in plans && plan.status.Draft?
    ensures Sum(PlanLoad(plans[id := plan], s)) == Sum(PlanLoad(plans, s))
  {
    assert PlanLoad(plans[id := plan], s) == PlanLoad(plans, s)[id := 0];
    SumInsert(PlanLoad(plans, s), id, 0);
  }

  lemma OtherPlansLoad(reservations: map<Id, Reservation>, plans: map<Id, Plan>, id: Id, plan: Plan, s: Id)
    requires id !in plans && forall r :: r in reservations ==> reservations[r].planId in plans
    ensures ReservationLoad(reservations, plans[id := plan], s) == ReservationLoad(reservations, plans, s)
  {
  }

  lemma DraftIsCovered(plans: map<Id, Plan>, reservations: map<Id, Reservation>, id: Id, plan: Plan)
    requires PlansCovered(plans, reservations) && id !in plans && plan.status.Draft?
    requires forall r :: r in reservations ==> reservations[r].planId in plans
    ensures PlansCovered(plans[id := plan], reservations)
  {
    SumZero(PlanHold(reservations, id));
  }

  lemma DraftHasNoJobs(jobs: map<Id, Job>, plans: map<Id, Plan>, reservations: map<Id, Reservation>, id: Id, plan: Plan)
    requires JobsMatch(jobs, plans, reservations) && id !in plans && plan.status.Draft?
    ensures JobsMatch(jobs, plans[id := plan], reservations)
  {
    assert JobClusters(jobs, id) == {};
  }

  lemma DraftInserted(a: Db, id: Id, plan: Plan)
    requires PlansOk(a.plans, a.sites) && ReservationsOk(a.reservations, a.plans, a.clusters)
    requires id !in a.plans && PlanOk(plan) && plan.siteId in a.sites
    requires exists input, now: Instant :: Plans.CreatePlan(input, now) == Ok(plan)
    ensures PlansOk(a.plans[id := plan], a.sites) && PlansStep(a.plans, a.plans[id := plan])
    ensures ReservationsOk(a.reservations, a.plans[id := plan], a.clusters)
    ensures forall r :: r in a.reservations ==> a.reservations[r].planId in a.plans
  {
    hide PlanOk, Plans.CreatePlan, LegalPlanWrite;
  }

  lemma PlanCreated(a: Db, id: Id, plan: Plan, input: NewPlan, now: Instant)
    requires Inv(a) && id !in a.plans && Plans.CreatePlan(input, now) == Ok(plan) && plan.siteId in a.sites
    ensures GoodStep(a, a.(plans := a.plans[id := plan]))
  {
    Parts(a);
    CreatedPlan(input, now);
    hide *;
    DraftInserted(a, id, plan);
    DraftAddsNoLoad(a.sites, a.plans, a.reservations, id, plan);
    DraftIsCovered(a.plans, a.reservations, id, plan);
    DraftHasNoJobs(a.jobs, a.plans, a.reservations, id, plan);
    PlansMove(a, a.plans[id := plan]);
    Whole(a, a.(plans := a.plans[id := plan]));
  }

  lemma CreatePlanKeeps(h: History, c: Call)
    requires HistoryInv(h) && c.CreatePlan? && TryCreatePlan(h, c).Some?
    ensures GoodStep(Last(h), TryCreatePlan(h, c).value)
  {
    LastIsSound(h);
    hide HistoryInv, Inv, GoodStep, Plans.CreatePlan;
    PlanCreated(Last(h), c.planId, Plans.CreatePlan(c.plan, c.now).value, c.plan, c.now);
  }

  /** A plan moving on among the non-draft states: the same load, covered by the same reservations. */
  predicate MovesOn(before: Plan, after: Plan) {
    SamePlan(before, after) && !before.status.Draft? && !after.status.Draft?
  }

  lemma SameLoads(sites: map<Id, Site>, plans: map<Id, Plan>, reservations: map<Id, Reservation>, id: Id, plan: Plan)
    requires SitesConserved(sites, plans, reservations) && id in plans && MovesOn(plans[id], plan)
    ensures SitesConserved(sites, plans[id := plan], reservations)
  {
    hide Sum;
    forall s | s in sites
      ensures PlanLoad(plans[id := plan], s) == PlanLoad(plans, s)
      ensures ReservationLoad(reservations, plans[id := plan], s) == ReservationLoad(reservations, plans, s)
    {
      SameLoad(reservations, plans, id, plan, s);
    }
    hide PlanLoad, ReservationLoad;
  }

  lemma SameLoad(reservations: map<Id, Reservation>, plans: map<Id, Plan>, id: Id, plan: Plan, s: Id)
    requires id in plans && MovesOn(plans[id], plan)
    ensures PlanLoad(plans[id := plan], s) == PlanLoad(plans, s)
    ensures ReservationLoad(reservations, plans[id := plan], s) == ReservationLoad(reservations, plans, s)
  {
  }

  lemma SameReservations(plans: map<Id, Plan>, reservations: map<Id, Reservation>, clusters: map<Id, Cluster>, id: Id, plan: Plan)
    requires ReservationsOk(reservations, plans, clusters) && id in plans && MovesOn(plans[id], plan)
    ensures ReservationsOk(reservations, plans[id := plan], clusters)
  {
    forall r | r in reservations ensures ReservationOk(reservations[r], plans[id := plan], clusters) {
      assert ReservationOk(reservations[r], plans, clusters);
    }
  }

  lemma StaysCovered(plans: map<Id, Plan>, reservations: map<Id, Reservation>, id: Id, plan: Plan)
    requires PlansCovered(plans, reservations) && id in plans && MovesOn(plans[id], plan)
    ensures PlansCovered(plans[id := plan], reservations)
  {
  }

  lemma PlanRowMoves(plans: map<Id, Plan>, sites: map<Id, Site>, id: Id, plan: Plan)
    requires PlansOk(plans, sites) && id in plans && LegalPlanWrite(plans[id], plan)
    ensures PlansOk(plans[id := plan], sites) && PlansStep(plans, plans[id := plan])
  {
    LegalPlanWriteKeeps(plans[id], plan);
    hide LegalPlanWrite, PlanOk;
  }

  /** A plan row moving on needs only its jobs to be accounted for. */
  lemma PlanMovesOn(a: Db, id: Id, plan: Plan, jobs: map<Id, Job>)
    requires Inv(a) && id in a.plans && LegalPlanWrite(a.plans[id], plan) && MovesOn(a.plans[id], plan)
    requires JobsOk(jobs) && JobsStep(a.jobs, jobs) && JobsMatch(jobs, a.plans[id := plan], a.reservations)
    ensures GoodStep(a, a.(plans := a.plans[id := plan], jobs := jobs))
  {
    Parts(a);
    hide *;
    var b := a.plans[id := plan];
    PlanRowMoves(a.plans, a.sites, id, plan);
    SameReservations(a.plans, a.reservations, a.clusters, id, plan);
    SameLoads(a.sites, a.plans, a.reservations, id, plan);
    StaysCovered(a.plans, a.reservations, id, plan);
    PlansAndJobsMove(a, b, jobs);
    Whole(a, a.(plans := b, jobs := jobs));
  }

  lemma PlansAndJobsMove(a: Db, plans: map<Id, Plan>, jobs: map<Id, Job>)
    requires PlansStep(a.plans, plans) && JobsStep(a.jobs, jobs)
    ensures LegalStep(a, a.(plans := plans, jobs := jobs))
  {
    NothingHappens(a);
    hide SitesStep, ClustersStep, PlansStep, JobsStep, AlarmsStep, Grows, SnapshotsStep;
  }

  lemma ApprovalIsLegal(before: Plan, actor: Id, expected: int, now: Instant, after: Plan)
    requires before.Approve(actor, expected, now) == Ok(after)
    ensures LegalPlanWrite(before, after) && MovesOn(before, after) && after.status.Approved? && !before.status.Dispatched?
  {
  }

  lemma NoJobsYet(jobs: map<Id, Job>, plans: map<Id, Plan>, reservations: map<Id, Reservation>, id: Id, plan: Plan)
    requires JobsMatch(jobs, plans, reservations) && id in plans && !plans[id].status.Dispatched? && !plan.status.Dispatched?
    ensures JobsMatch(jobs, plans[id := plan], reservations)
  {
  }

  lemma PlanApproved(a: Db, id: Id, actor: Id, expected: int, now: Instant, plan: Plan)
    requires Inv(a) && id in a.plans && a.plans[id].Approve(actor, expected, now) == Ok(plan)
    ensures GoodStep(a, a.(plans := a.plans[id := plan]))
  {
    Parts(a);
    JobsStepStays(a.jobs);
    ApprovalIsLegal(a.plans[id], actor, expected, now, plan);
    hide *;
    NoJobsYet(a.jobs, a.plans, a.reservations, id, plan);
    PlanMovesOn(a, id, plan, a.jobs);
    assert a.(plans := a.plans[id := plan], jobs := a.jobs) == a.(plans := a.plans[id := plan]);
  }

  lemma JobsStepStays(jobs: map<Id, Job>)
    ensures JobsStep(jobs, jobs)
  {
  }

  lemma PlanUpdateWrites(db: Db, id: Id, plan: Plan, expected: int)
    requires UpdatePlanTx(db, id, plan, expected).Some? && SamePlan(db.plans[id], plan)
    ensures id in db.plans && db.plans[id].version == expected
    ensures UpdatePlanTx(db, id, plan, expected) == Some(db.(plans := db.plans[id := plan]))
  {
  }

  /** An approval is committed only against the very row that was read. */
  lemma ApprovalMeetsReadRow(h: History, c: Call)
    requires HistoryInv(h) && c.ApprovePlan? && TryApprove(h, c).Some?
    ensures c.at < |h| && c.planId in h[c.at].plans && c.planId in Last(h).plans
    ensures h[c.at].plans[c.planId] == Last(h).plans[c.planId]
    ensures var approved := Last(h).plans[c.planId].Approve(c.actor, c.expected, c.now);
            approved.Ok? && TryApprove(h, c) == Some(Last(h).(plans := Last(h).plans[c.planId := approved.value]))
  {
    PlanRead(h, c.at, c.planId);
    hide HistoryInv, PlanOk;
    var row := h[c.at].plans[c.planId];
    assert UpdatePlanTx(Last(h), c.planId, row.Approve(c.actor, c.expected, c.now).value, c.expected).Some?;
    assert row == Last(h).plans[c.planId];
    ApprovalIsLegal(row, c.actor, c.expected, c.now, row.Approve(c.actor, c.expected, c.now).value);
    hide UpdatePlanTx, LegalPlanWrite;
    PlanUpdateWrites(Last(h), c.planId, row.Approve(c.actor, c.expected, c.now).value, c.expected);
  }

  lemma ApprovePlanKeeps(h: History, c: Call)
    requires HistoryInv(h) && c.ApprovePlan? && TryApprove(h, c).Some?
    ensures GoodStep(Last(h), TryApprove(h, c).value)
  {
    ApprovalMeetsReadRow(h, c);
    LastIsSound(h);
    hide *;
    PlanApproved(Last(h), c.planId, c.actor, c.expected, c.now, Last(h).plans[c.planId].Approve(c.actor, c.expected, c.now).value);
  }

  // ----- Jobs -----

  /** Jobs whose plan and cluster are fixed keep matching the reservations. */
  lemma SameJobsMatch(a: map<Id, Job>, b: map<Id, Job>, plans: map<Id, Plan>, reservations: map<Id, Reservation>)
    requires JobsMatch(a, plans, reservations) && JobsFollow(a, b) && a.Keys == b.Keys
    ensures JobsMatch(b, plans, reservations)
  {
    forall p | p in plans ensures JobClusters(b, p) == JobClusters(a, p) {
    }
  }

  lemma JobsWritten(a: Db, jobs: map<Id, Job>)
    requires Inv(a) && JobsStep(a.jobs, jobs) && a.jobs.Keys == jobs.Keys
    ensures GoodStep(a, a.(jobs := jobs))
  {
    Parts(a);
    hide *;
    JobsStepFollows(a.jobs, jobs);
    SameJobsMatch(a.jobs, jobs, a.plans, a.reservations);
    JobsMove(a, jobs);
    Whole(a, a.(jobs := jobs));
  }

  lemma ClaimIsStep(a: Db, owner: string, candidates: seq<Id>, now: Instant, duration: nat)
    ensures JobsStep(a.jobs, ClaimTx(a, owner, candidates, now, duration).jobs)
  {
    var jobs := ClaimTx(a, owner, candidates, now, duration).jobs;
    forall id | id in a.jobs && jobs[id] != a.jobs[id] ensures LegalJobWrite(a.jobs[id], jobs[id]) {
      LeaseIff(a.jobs[id], jobs[id], owner, now, duration);
    }
  }

  lemma JobsClaimed(a: Db, owner: string, candidates: seq<Id>, now: Instant, duration: nat)
    requires Inv(a)
    ensures GoodStep(a, ClaimTx(a, owner, candidates, now, duration))
  {
    ClaimIsStep(a, owner, candidates, now, duration);
    hide Inv, GoodStep, JobsStep;
    JobsWritten(a, ClaimTx(a, owner, candidates, now, duration).jobs);
  }

  lemma FinishIsLegal(job: Job, owner: string, execution: Execution, now: Instant, after: Job)
    requires Finished(job, owner, execution, now) == Ok(after)
    ensures LegalJobWrite(job, after)
    ensures after.planId == job.planId && after.clusterId == job.clusterId && after.maxAttempts == job.maxAttempts
  {
    match execution {
      case Done => SucceedIff(job, after, owner, now);
      case Failed(cause, retryable) => FailIff(job, after, owner, cause, retryable, now, SECOND);
    }
  }

  lemma FinishWrites(a: Db, id: Id, job: Job)
    requires Inv(a) && id in a.jobs && LegalJobWrite(a.jobs[id], job)
    ensures GoodStep(a, a.(jobs := a.jobs[id := job]))
  {
    hide Inv, GoodStep, LegalJobWrite;
    JobsWritten(a, a.jobs[id := job]);
  }

  /** A worker's write meets the very row the worker holds, or nothing happens. */
  lemma FinishMeetsHeldRow(h: History, c: Call)
    requires HistoryInv(h) && c.FinishJob? && TryFinish(h, c).Some?
    ensures c.jobId in Last(h).jobs && h[c.at].jobs[c.jobId] == Last(h).jobs[c.jobId]
    ensures var finished := Finished(Last(h).jobs[c.jobId], c.owner, c.execution, c.now);
            finished.Ok? && TryFinish(h, c) == Some(Last(h).(jobs := Last(h).jobs[c.jobId := finished.value]))
  {
    JobRead(h, c.at, c.jobId);
    hide HistoryInv, Finished;
    var job := h[c.at].jobs[c.jobId];
    FinishIsLegal(job, c.owner, c.execution, c.now, Finished(job, c.owner, c.execution, c.now).value);
  }

  lemma FinishJobKeeps(h: History, c: Call)
    requires HistoryInv(h) && c.FinishJob? && TryFinish(h, c).Some?
    ensures GoodStep(Last(h), TryFinish(h, c).value)
  {
    FinishMeetsHeldRow(h, c);
    LastIsSound(h);
    hide *;
    var (row, finished) := (Last(h).jobs[c.jobId], Finished(Last(h).jobs[c.jobId], c.owner, c.execution, c.now));
    FinishIsLegal(row, c.owner, c.execution, c.now, finished.value);
    FinishWrites(Last(h), c.jobId, finished.value);
  }

  // ----- Alarms -----

  lemma AlarmRowWritten(alarms: map<Id, Alarm>, id: Id, alarm: Alarm)
    requires AlarmsUnique(alarms) && id in alarms && LegalAlarmWrite(alarms[id], alarm)
    ensures AlarmsUnique(alarms[id := alarm]) && AlarmsStep(alarms, alarms[id := alarm])
  {
    LegalAlarmWriteShape(alarms[id], alarm);
    hide LegalAlarmWrite;
  }

  lemma AlarmWritten(a: Db, id: Id, alarm: Alarm)
    requires Inv(a) && id in a.alarms && LegalAlarmWrite(a.alarms[id], alarm)
    ensures GoodStep(a, a.(alarms := a.alarms[id := alarm]))
  {
    Parts(a);
    hide *;
    AlarmRowWritten(a.alarms, id, alarm);
    AlarmsMove(a, a.alarms[id := alarm]);
    Whole(a, a.(alarms := a.alarms[id := alarm]));
  }

  lemma AlarmUpdateWrites(db: Db, id: Id, expected: int, alarm: Alarm, audited: bool)
    requires UpdateAlarmTx(db, id, alarm, expected, audited).Some? && LegalAlarmWrite(db.alarms[id], alarm)
    ensures id in db.alarms && db.alarms[id].version == expected
    ensures UpdateAlarmTx(db, id, alarm, expected, audited) == Some(db.(alarms := db.alarms[id := alarm]))
  {
  }

  /** The shared end of Acknowledge and Resolve: the changed copy meets the row it was made from. */
  lemma AlarmUpdateKeeps(h: History, at: nat, id: Id, alarm: Alarm, expected: int, audited: bool)
    requires HistoryInv(h) && at < |h| && id in h[at].alarms
    requires LegalAlarmWrite(h[at].alarms[id], alarm) && h[at].alarms[id].version == expected
    requires UpdateAlarmTx(Last(h), id, alarm, expected, audited).Some?
    ensures GoodStep(Last(h), UpdateAlarmTx(Last(h), id, alarm, expected, audited).value)
  {
    AlarmRead(h, at, id);
    assert h[at].alarms[id] == Last(h).alarms[id];
    LastIsSound(h);
    hide *;
    AlarmUpdateWrites(Last(h), id, expected, alarm, audited);
    AlarmWritten(Last(h), id, alarm);
  }

  lemma AcknowledgeKeeps(h: History, c: Call)
    requires HistoryInv(h) && c.AcknowledgeAlarm? && TryAcknowledge(h, c).Some?
    ensures GoodStep(Last(h), TryAcknowledge(h, c).value)
  {
    hide HistoryInv, Inv, GoodStep, UpdateAlarmTx;
    var alarm := h[c.at].alarms[c.alarmId];
    assert LegalAlarmWrite(alarm, alarm.Acknowledge(c.actor, c.expected).value);
    hide LegalAlarmWrite;
    AlarmUpdateKeeps(h, c.at, c.alarmId, alarm.Acknowledge(c.actor, c.expected).value, c.expected, c.audited);
  }

  lemma ResolveKeeps(h: History, c: Call)
    requires HistoryInv(h) && c.ResolveAlarm? && TryResolve(h, c).Some?
    ensures GoodStep(Last(h), TryResolve(h, c).value)
  {
    hide HistoryInv, Inv, GoodStep, UpdateAlarmTx;
    var alarm := h[c.at].alarms[c.alarmId];
    assert LegalAlarmWrite(alarm, alarm.Resolve(c.actor, c.expected, true).value);
    hide LegalAlarmWrite;
    AlarmUpdateKeeps(h, c.at, c.alarmId, alarm.Resolve(c.actor, c.expected, true).value, c.expected, c.audited);
  }

  // ----- Telemetry -----

  predicate NewAlarm(row: Alarm) {
    row.status.Open? && row.version == 1 && row.fingerprint == Fingerprint(row.clusterId, row.kind)
  }

  lemma {:induction false} RaiseKeeps(alarms: map<Id, Alarm>, ids: seq<Id>, rows: seq<Alarm>)
    requires |ids| == |rows| && AlarmsUnique(alarms)
    requires forall i :: 0 <= i < |rows| ==> NewAlarm(rows[i])
    ensures var raised := RaiseAlarms(alarms, ids, rows);
            && AlarmsUnique(raised) && AlarmsStep(alarms, raised) && Grows(alarms, raised)
  {
    if ids != [] {
      var n := |ids| - 1;
      RaiseKeeps(alarms, ids[..n], rows[..n]);
      assert NewAlarm(rows[n]);
      var before := RaiseAlarms(alarms, ids[..n], rows[..n]);
      hide AlarmsUnique, AlarmsStep, Grows, NewAlarm;
      if ids[n] !in before && !ActiveAlarm(before, rows[n].fingerprint) {
        hide ActiveAlarm;
        RaiseOne(alarms, before, ids[n], rows[n]);
      }
    } else {
      AlarmsStay(alarms);
    }
  }

  lemma AlarmsStay(alarms: map<Id, Alarm>)
    ensures AlarmsStep(alarms, alarms) && Grows(alarms, alarms)
  {
  }

  lemma RaiseOne(alarms: map<Id, Alarm>, before: map<Id, Alarm>, id: Id, row: Alarm)
    requires AlarmsUnique(before) && AlarmsStep(alarms, before) && Grows(alarms, before)
    requires id !in before && !ActiveAlarm(before, row.fingerprint) && NewAlarm(row)
    ensures AlarmsUnique(before[id := row]) && AlarmsStep(alarms, before[id := row]) && Grows(alarms, before[id := row])
  {
    hide Fingerprint, LegalAlarmWrite;
  }

  lemma ProjectionAdvances(a: Db, snapshotId: Id, snapshot: Snapshot, row: Cluster)
    requires Projected(a.clusters, a.snapshots) && snapshotId !in a.snapshots
    requires snapshot.reading.clusterId in a.clusters && snapshot.reading.sequence > 0
    requires a.clusters[snapshot.reading.clusterId].latestSequence < snapshot.reading.sequence
    requires IsLatest(snapshot.reading, row, snapshot.reading.clusterId)
    ensures Projected(a.clusters[snapshot.reading.clusterId := row], a.snapshots[snapshotId := snapshot])
  {
    var id := snapshot.reading.clusterId;
    var (clusters, snapshots) := (a.clusters[id := row], a.snapshots[snapshotId := snapshot]);
    forall x | x in clusters ensures ProjectedRow(clusters[x], x, snapshots) {
      assert ProjectedRow(a.clusters[x], x, a.snapshots);
      if x == id {
        NewestIsProjected(a.clusters[x], id, a.snapshots, snapshotId, snapshot, row);
      } else {
        ProjectionIgnoresOthers(a.clusters[x], x, a.snapshots, snapshotId, snapshot);
      }
    }
    SequencesStayUnique(a.clusters, a.snapshots, snapshotId, snapshot);
    hide ProjectedRow;
  }

  lemma NewestIsProjected(before: Cluster, id: Id, snapshots: map<Id, Snapshot>, snapshotId: Id, snapshot: Snapshot, row: Cluster)
    requires ProjectedRow(before, id, snapshots) && snapshotId !in snapshots && before.latestSequence < snapshot.reading.sequence
    requires IsLatest(snapshot.reading, row, id) && snapshot.reading.sequence > 0
    ensures ProjectedRow(row, id, snapshots[snapshotId := snapshot])
  {
    var more := snapshots[snapshotId := snapshot];
    assert snapshotId in more && IsLatest(more[snapshotId].reading, row, id);
  }

  lemma SequencesStayUnique(clusters: map<Id, Cluster>, snapshots: map<Id, Snapshot>, snapshotId: Id, snapshot: Snapshot)
    requires Projected(clusters, snapshots) && snapshotId !in snapshots && snapshot.reading.clusterId in clusters
    requires clusters[snapshot.reading.clusterId].latestSequence < snapshot.reading.sequence
    ensures var more := snapshots[snapshotId := snapshot];
            forall x, y :: x in more && y in more && x != y ==>
              more[x].reading.clusterId != more[y].reading.clusterId || more[x].reading.sequence != more[y].reading.sequence
  {
    assert ProjectedRow(clusters[snapshot.reading.clusterId], snapshot.reading.clusterId, snapshots);
  }

  lemma ProjectionIgnoresOthers(row: Cluster, id: Id, snapshots: map<Id, Snapshot>, snapshotId: Id, snapshot: Snapshot)
    requires ProjectedRow(row, id, snapshots) && snapshotId !in snapshots && snapshot.reading.clusterId != id
    ensures ProjectedRow(row, id, snapshots[snapshotId := snapshot])
  {
    var more := snapshots[snapshotId := snapshot];
    if row.latestSequence != 0 {
      var s :| s in snapshots && IsLatest(snapshots[s].reading, row, id);
      assert s in more && IsLatest(more[s].reading, row, id);
    }
  }

  /** The row that StoreTelemetryAtomic writes is the domain's ApplyTelemetry of the current row. */
  lemma AdvanceIsLegal(row: Cluster, snapshot: Snapshot, now: Instant)
    requires var r := snapshot.reading; row.ApplyTelemetry(r.sequence, r.soc, r.observedAt, now).Ok?
    ensures var after := Advance(row, snapshot, snapshot.reading.soc);
            && LegalClusterWrite(row, after) && SameCluster(row, after) && 0 <= after.currentSoc <= 100
            && IsLatest(snapshot.reading, after, snapshot.reading.clusterId)
            && row.latestSequence < snapshot.reading.sequence
  {
    var r := snapshot.reading;
    assert row.ApplyTelemetry(r.sequence, r.soc, r.observedAt, now) == Ok(Advance(row, snapshot, r.soc));
  }

  lemma ClusterRowStep(clusters: map<Id, Cluster>, sites: map<Id, Site>, id: Id, row: Cluster)
    requires ClustersOk(clusters, sites) && id in clusters && LegalClusterWrite(clusters[id], row)
    requires SameCluster(clusters[id], row) && 0 <= row.currentSoc <= 100
    ensures ClustersOk(clusters[id := row], sites) && ClustersStep(clusters, clusters[id := row])
    ensures forall x :: x in clusters ==> SameCluster(clusters[x], clusters[id := row][x])
  {
    hide LegalClusterWrite;
  }

  lemma TelemetryMoves(a: Db, snapshots: map<Id, Snapshot>, clusters: map<Id, Cluster>, alarms: map<Id, Alarm>)
    requires SnapshotsStep(a.clusters, a.snapshots, snapshots) && ClustersStep(a.clusters, clusters) && AlarmsStep(a.alarms, alarms)
    ensures LegalStep(a, a.(snapshots := snapshots, clusters := clusters, alarms := alarms))
  {
    NothingHappens(a);
    hide SitesStep, ClustersStep, PlansStep, JobsStep, AlarmsStep, Grows, SnapshotsStep;
  }

  lemma SnapshotIsNewest(clusters: map<Id, Cluster>, snapshots: map<Id, Snapshot>, id: Id, snapshot: Snapshot)
    requires id !in snapshots && snapshot.reading.clusterId in clusters
    requires clusters[snapshot.reading.clusterId].latestSequence < snapshot.reading.sequence
    ensures SnapshotsStep(clusters, snapshots, snapshots[id := snapshot])
  {
  }

  lemma SnapshotStored(a: Db, snapshotId: Id, snapshot: Snapshot, now: Instant, alarms: map<Id, Alarm>)
    requires Inv(a) && snapshotId !in a.snapshots && snapshot.reading.clusterId in a.clusters && snapshot.reading.sequence > 0
    requires var r := snapshot.reading; a.clusters[r.clusterId].ApplyTelemetry(r.sequence, r.soc, r.observedAt, now).Ok?
    requires AlarmsUnique(alarms) && AlarmsStep(a.alarms, alarms)
    ensures var (r, row) := (snapshot.reading, a.clusters[snapshot.reading.clusterId]);
            GoodStep(a, a.(snapshots := a.snapshots[snapshotId := snapshot],
                           clusters := a.clusters[r.clusterId := Advance(row, snapshot, r.soc)], alarms := alarms))
  {
    Parts(a);
    var (id, snapshots) := (snapshot.reading.clusterId, a.snapshots[snapshotId := snapshot]);
    hide *;
    AdvanceIsLegal(a.clusters[id], snapshot, now);
    SnapshotIsNewest(a.clusters, a.snapshots, snapshotId, snapshot);
    var row := Advance(a.clusters[id], snapshot, snapshot.reading.soc);
    var b := a.clusters[id := row];
    ClusterRowStep(a.clusters, a.sites, id, row);
    ProjectionAdvances(a, snapshotId, snapshot, row);
    ReservationsStayOk(a.reservations, a.plans, a.clusters, b);
    TelemetryMoves(a, snapshots, b, alarms);
    Whole(a, a.(snapshots := snapshots, clusters := b, alarms := alarms));
  }

  lemma TelemetryWrites(a: Db, id: Id, s: Snapshot, soc: int, version: int, alarmIds: seq<Id>, alarms: seq<Alarm>, audited: bool)
    requires |alarmIds| == |alarms| && TelemetryTx(a, id, s, soc, version, alarmIds, alarms, audited).Some?
    ensures var c := s.reading.clusterId;
            && id !in a.snapshots && c in a.clusters && a.clusters[c].version == version
            && TelemetryTx(a, id, s, soc, version, alarmIds, alarms, audited)
               == Some(a.(snapshots := a.snapshots[id := s], clusters := a.clusters[c := Advance(a.clusters[c], s, soc)],
                          alarms := RaiseAlarms(a.alarms, alarmIds, alarms)))
  {
  }

  /** What Record computes from the cluster row it read. */
  lemma ReadingIsPrepared(h: History, c: Call)
    requires c.RecordTelemetry? && TryRecord(h, c).Some?
    ensures c.at < |h| && c.reading.clusterId in h[c.at].clusters
    ensures NewSnapshot(c.reading, c.now) == Ok(Snapshot(c.reading, c.now)) && c.thresholds.Validate().None?
    ensures var (r, row) := (c.reading, h[c.at].clusters[c.reading.clusterId]);
            var rows := AlarmRows(row.siteId, r.clusterId, Conditions(Snapshot(r, c.now), c.thresholds));
            && row.ApplyTelemetry(r.sequence, r.soc, r.observedAt, c.now).Ok? && |rows| == |c.alarmIds|
            && TryRecord(h, c) == TelemetryTx(Last(h), c.snapshotId, Snapshot(r, c.now), r.soc, row.version, c.alarmIds, rows, c.audited)
  {
    hide TelemetryTx, Conditions, Thresholds.Validate;
  }

  /** A reading is committed only against the very cluster row that was read. */
  lemma ReadingMeetsReadRow(h: History, c: Call)
    requires HistoryInv(h) && c.RecordTelemetry? && TryRecord(h, c).Some?
    ensures c.at < |h| && c.reading.clusterId in h[c.at].clusters && c.reading.clusterId in Last(h).clusters
    ensures h[c.at].clusters[c.reading.clusterId] == Last(h).clusters[c.reading.clusterId]
  {
    ReadingIsPrepared(h, c);
    ClusterRead(h, c.at, c.reading.clusterId);
    hide *;
    var (r, row) := (c.reading, h[c.at].clusters[c.reading.clusterId]);
    TelemetryWrites(Last(h), c.snapshotId, Snapshot(r, c.now), r.soc, row.version, c.alarmIds,
                    AlarmRows(row.siteId, r.clusterId, Conditions(Snapshot(r, c.now), c.thresholds)), c.audited);
  }

  lemma RowsAreNew(siteId: Id, clusterId: Id, conditions: seq<Condition>)
    requires forall i :: 0 <= i < |conditions| ==> conditions[i].fingerprint == Fingerprint(clusterId, conditions[i].kind)
    ensures var rows := AlarmRows(siteId, clusterId, conditions);
            |rows| == |conditions| && forall i :: 0 <= i < |rows| ==> NewAlarm(rows[i])
  {
  }

  lemma RecordKeeps(h: History, c: Call)
    requires HistoryInv(h) && c.RecordTelemetry? && TryRecord(h, c).Some?
    ensures GoodStep(Last(h), TryRecord(h, c).value)
  {
    var (a, id, snapshot) := (Last(h), c.reading.clusterId, Snapshot(c.reading, c.now));
    ReadingMeetsReadRow(h, c);
    ReadingIsPrepared(h, c);
    LastIsSound(h);
    Parts(a);
    assert c.reading.sequence > 0;
    hide *;
    var rows := AlarmRows(a.clusters[id].siteId, id, Conditions(snapshot, c.thresholds));
    ConditionsAreDistinct(snapshot, c.thresholds);
    RowsAreNew(a.clusters[id].siteId, id, Conditions(snapshot, c.thresholds));
    RaiseKeeps(a.alarms, c.alarmIds, rows);
    TelemetryWrites(a, c.snapshotId, snapshot, c.reading.soc, a.clusters[id].version, c.alarmIds, rows, c.audited);
    SnapshotStored(a, c.snapshotId, snapshot, c.now, RaiseAlarms(a.alarms, c.alarmIds, rows));
  }
}
