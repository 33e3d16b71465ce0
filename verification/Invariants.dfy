/**
 * What every reachable database satisfies, what every step is allowed to do to a row,
 * and how any two states of one history are related.
 */
module Invariants {
  import opened Prelude
  import opened Clock
  import opened Sites
  import opened Plans
  import opened Jobs
  import opened Telemetry
  import opened Tables
  import opened Machine

  // ----- States -----

  ghost predicate SitesOk(sites: map<Id, Site>) {
    forall id :: id in sites ==>
      && 0 <= sites[id].reservedKW <= sites[id].gridLimitKW && sites[id].gridLimitKW > 0
      && (sites[id].status.Retired? ==> sites[id].reservedKW == 0)
  }

  ghost predicate ClustersOk(clusters: map<Id, Cluster>, sites: map<Id, Site>) {
    forall id :: id in clusters ==> clusters[id].siteId in sites && 0 <= clusters[id].currentSoc <= 100
  }

  ghost predicate PlansOk(plans: map<Id, Plan>, sites: map<Id, Site>) {
    forall id :: id in plans ==> PlanOk(plans[id]) && plans[id].siteId in sites
  }

  ghost predicate ReservationsOk(reservations: map<Id, Reservation>, plans: map<Id, Plan>, clusters: map<Id, Cluster>) {
    && (forall id :: id in reservations ==> ReservationOk(reservations[id], plans, clusters))
    && (forall a, b :: a in reservations && b in reservations && a != b ==>
          reservations[a].planId != reservations[b].planId || reservations[a].clusterId != reservations[b].clusterId)
  }

  /** A reservation is held for its plan's whole window on a cluster of the plan's site, within the cluster's rating. */
  ghost predicate ReservationOk(r: Reservation, plans: map<Id, Plan>, clusters: map<Id, Cluster>) {
    && r.planId in plans && !plans[r.planId].status.Draft? && r.window == plans[r.planId].window && r.status.Held?
    && r.clusterId in clusters && clusters[r.clusterId].siteId == plans[r.planId].siteId
    && 0 < r.reservedKW <= clusters[r.clusterId].ratedPowerKW
  }

  ghost predicate Disjoint(reservations: map<Id, Reservation>) {
    forall a, b :: a in reservations && b in reservations && a != b
                   && reservations[a].clusterId == reservations[b].clusterId
                   && !reservations[a].status.Released? && !reservations[b].status.Released? ==>
                     !reservations[a].window.SqlOverlaps(reservations[b].window)
  }

  /** RequestedKW of the non-draft plans of a site. */
  ghost function PlanLoad(plans: map<Id, Plan>, siteId: Id): map<Id, int> {
    map id | id in plans :: if plans[id].siteId == siteId && !plans[id].status.Draft? then plans[id].requestedKW else 0
  }

  /** Power of the unreleased reservations of a site's plans. */
  ghost function ReservationLoad(reservations: map<Id, Reservation>, plans: map<Id, Plan>, siteId: Id): map<Id, int> {
    map id | id in reservations ::
      if !reservations[id].status.Released? && reservations[id].planId in plans && plans[reservations[id].planId].siteId == siteId
      then reservations[id].reservedKW else 0
  }

  /** Power of the unreleased reservations of one plan. */
  ghost function PlanHold(reservations: map<Id, Reservation>, planId: Id): map<Id, int> {
    map id | id in reservations ::
      if !reservations[id].status.Released? && reservations[id].planId == planId then reservations[id].reservedKW else 0
  }

  ghost predicate SitesConserved(sites: map<Id, Site>, plans: map<Id, Plan>, reservations: map<Id, Reservation>) {
    forall s :: s in sites ==>
      && sites[s].reservedKW == Sum(PlanLoad(plans, s))
      && sites[s].reservedKW == Sum(ReservationLoad(reservations, plans, s))
  }

  ghost predicate PlansCovered(plans: map<Id, Plan>, reservations: map<Id, Reservation>) {
    forall p :: p in plans ==>
      Sum(PlanHold(reservations, p)) == if plans[p].status.Draft? then 0 else plans[p].requestedKW
  }

  ghost function HeldClusters(reservations: map<Id, Reservation>, planId: Id): set<Id> {
    set id | id in reservations && reservations[id].planId == planId :: reservations[id].clusterId
  }

  ghost function JobClusters(jobs: map<Id, Job>, planId: Id): set<Id> {
    set id | id in jobs && jobs[id].planId == planId :: jobs[id].clusterId
  }

  /** One job per reservation from dispatch on, and none before. */
  ghost predicate JobsMatch(jobs: map<Id, Job>, plans: map<Id, Plan>, reservations: map<Id, Reservation>) {
    && (forall id :: id in jobs ==> jobs[id].planId in plans)
    && (forall a, b :: a in jobs && b in jobs && a != b ==>
          jobs[a].planId != jobs[b].planId || jobs[a].clusterId != jobs[b].clusterId)
    && (forall p :: p in plans ==>
          JobClusters(jobs, p) == if plans[p].status.Dispatched? then HeldClusters(reservations, p) else {})
  }

  ghost predicate JobsOk(jobs: map<Id, Job>) {
    forall id :: id in jobs ==> JobOk(jobs[id])
  }

  /** The telemetry columns of a cluster row are those of its highest-sequence snapshot. */
  ghost predicate ProjectedRow(cluster: Cluster, id: Id, snapshots: map<Id, Snapshot>) {
    && cluster.latestSequence >= 0
    && (forall s :: s in snapshots && snapshots[s].reading.clusterId == id ==>
          0 < snapshots[s].reading.sequence <= cluster.latestSequence)
    && if cluster.latestSequence == 0 then cluster.latestTelemetryAt.None?
       else exists s :: s in snapshots && IsLatest(snapshots[s].reading, cluster, id)
  }

  ghost predicate IsLatest(reading: Reading, cluster: Cluster, id: Id) {
    && reading.clusterId == id && reading.sequence == cluster.latestSequence
    && reading.soc == cluster.currentSoc && Some(reading.observedAt) == cluster.latestTelemetryAt
  }

  ghost predicate Projected(clusters: map<Id, Cluster>, snapshots: map<Id, Snapshot>) {
    && (forall s :: s in snapshots ==> snapshots[s].reading.clusterId in clusters)
    && (forall c :: c in clusters ==> ProjectedRow(clusters[c], c, snapshots))
    && (forall a, b :: a in snapshots && b in snapshots && a != b ==>
          snapshots[a].reading.clusterId != snapshots[b].reading.clusterId
          || snapshots[a].reading.sequence != snapshots[b].reading.sequence)
  }

  ghost predicate AlarmsUnique(alarms: map<Id, Alarm>) {
    && (forall id :: id in alarms ==> alarms[id].fingerprint == Fingerprint(alarms[id].clusterId, alarms[id].kind))
    && (forall a, b :: a in alarms && b in alarms && a != b && alarms[a].fingerprint == alarms[b].fingerprint ==>
          alarms[a].status.Resolved? || alarms[b].status.Resolved?)
  }

  ghost predicate CapacityInv(sites: map<Id, Site>, clusters: map<Id, Cluster>, plans: map<Id, Plan>, reservations: map<Id, Reservation>) {
    && SitesOk(sites)
    && ClustersOk(clusters, sites)
    && PlansOk(plans, sites)
    && ReservationsOk(reservations, plans, clusters)
    && Disjoint(reservations)
    && SitesConserved(sites, plans, reservations)
    && PlansCovered(plans, reservations)
  }

  ghost predicate JobsInv(jobs: map<Id, Job>, plans: map<Id, Plan>, reservations: map<Id, Reservation>) {
    JobsMatch(jobs, plans, reservations) && JobsOk(jobs)
  }

  ghost predicate Inv(db: Db) {
    && CapacityInv(db.sites, db.clusters, db.plans, db.reservations)
    && JobsInv(db.jobs, db.plans, db.reservations)
    && Projected(db.clusters, db.snapshots)
    && AlarmsUnique(db.alarms)
  }

  // ----- Steps -----

  // Every row either stays, or is written as the domain allows on its current value;
  // new rows are as the domain creates them; nothing is deleted.

  ghost predicate SitesStep(a: map<Id, Site>, b: map<Id, Site>) {
    && a.Keys <= b.Keys
    && (forall id :: id in a ==> b[id] == a[id] || LegalSiteWrite(a[id], b[id]))
    && (forall id :: id in b && id !in a ==> exists limit :: Sites.CreateSite(limit) == Ok(b[id]))
  }

  ghost predicate ClustersStep(a: map<Id, Cluster>, b: map<Id, Cluster>) {
    && a.Keys <= b.Keys
    && (forall id :: id in a ==> b[id] == a[id] || LegalClusterWrite(a[id], b[id]))
    && (forall id :: id in b && id !in a ==> exists input :: Sites.CreateCluster(input) == Ok(b[id]))
  }

  ghost predicate PlansStep(a: map<Id, Plan>, b: map<Id, Plan>) {
    && a.Keys <= b.Keys
    && (forall id :: id in a ==> b[id] == a[id] || LegalPlanWrite(a[id], b[id]))
    && (forall id :: id in b && id !in a ==> exists input, now: Instant :: Plans.CreatePlan(input, now) == Ok(b[id]))
  }

  ghost predicate JobsStep(a: map<Id, Job>, b: map<Id, Job>) {
    && a.Keys <= b.Keys
    && (forall id :: id in a ==> b[id] == a[id] || LegalJobWrite(a[id], b[id]))
    && (forall id :: id in b && id !in a ==> JobOk(b[id]) && b[id].status.Pending? && b[id].version == 1)
  }

  ghost predicate AlarmsStep(a: map<Id, Alarm>, b: map<Id, Alarm>) {
    && a.Keys <= b.Keys
    && (forall id :: id in a ==> b[id] == a[id] || LegalAlarmWrite(a[id], b[id]))
    && (forall id :: id in b && id !in a ==> b[id].status.Open? && b[id].version == 1)
  }

  ghost predicate Grows<V>(a: map<Id, V>, b: map<Id, V>) {
    forall id :: id in a ==> id in b && b[id] == a[id]
  }

  /** A stored snapshot stays, and a new one is newer than all that its cluster row had seen. */
  ghost predicate SnapshotsStep(clusters: map<Id, Cluster>, a: map<Id, Snapshot>, b: map<Id, Snapshot>) {
    && Grows(a, b)
    && forall id :: id in b && id !in a ==>
         b[id].reading.clusterId in clusters && clusters[b[id].reading.clusterId].latestSequence < b[id].reading.sequence
  }

  /** One step of the database, row by row. */
  ghost predicate LegalStep(a: Db, b: Db) {
    && SitesStep(a.sites, b.sites)
    && ClustersStep(a.clusters, b.clusters)
    && PlansStep(a.plans, b.plans)
    && JobsStep(a.jobs, b.jobs)
    && AlarmsStep(a.alarms, b.alarms)
    && Grows(a.reservations, b.reservations)
    && SnapshotsStep(a.clusters, a.snapshots, b.snapshots)
  }

  // ----- Earlier and later states -----

  // A later row has a greater version or is the very same row. This is what makes a
  // version an honest name for the row that was read.

  ghost predicate SitesFollow(a: map<Id, Site>, b: map<Id, Site>) {
    forall id :: id in a ==> id in b && (b[id] == a[id] || a[id].version < b[id].version)
  }

  ghost predicate ClustersFollow(a: map<Id, Cluster>, b: map<Id, Cluster>) {
    forall id :: id in a ==> id in b && (b[id] == a[id] || a[id].version < b[id].version) && SameCluster(a[id], b[id])
                              && Newer(a[id], b[id])
  }

  /** Telemetry columns change only together with a greater sequence. */
  predicate Newer(a: Cluster, b: Cluster) {
    || a.latestSequence < b.latestSequence
    || (a.latestSequence == b.latestSequence && a.currentSoc == b.currentSoc && a.latestTelemetryAt == b.latestTelemetryAt)
  }

  ghost predicate PlansFollow(a: map<Id, Plan>, b: map<Id, Plan>) {
    forall id :: id in a ==> id in b && (b[id] == a[id] || a[id].version < b[id].version) && SamePlan(a[id], b[id])
  }

  ghost predicate JobsFollow(a: map<Id, Job>, b: map<Id, Job>) {
    forall id :: id in a ==> id in b && (b[id] == a[id] || a[id].version < b[id].version)
                              && a[id].planId == b[id].planId && a[id].clusterId == b[id].clusterId
  }

  ghost predicate AlarmsFollow(a: map<Id, Alarm>, b: map<Id, Alarm>) {
    forall id :: id in a ==> id in b && (b[id] == a[id] || a[id].version < b[id].version)
                              && a[id].fingerprint == b[id].fingerprint && (a[id].status.Resolved? ==> b[id] == a[id])
  }

  ghost predicate Follows(a: Db, b: Db) {
    && SitesFollow(a.sites, b.sites)
    && ClustersFollow(a.clusters, b.clusters)
    && PlansFollow(a.plans, b.plans)
    && JobsFollow(a.jobs, b.jobs)
    && AlarmsFollow(a.alarms, b.alarms)
    && Grows(a.reservations, b.reservations)
    && Grows(a.snapshots, b.snapshots)
  }

  lemma FollowsIsTransitive(a: Db, b: Db, c: Db)
    requires Follows(a, b) && Follows(b, c)
    ensures Follows(a, c)
  {
    SitesFollowOn(a.sites, b.sites, c.sites);
    ClustersFollowOn(a.clusters, b.clusters, c.clusters);
    PlansFollowOn(a.plans, b.plans, c.plans);
    JobsFollowOn(a.jobs, b.jobs, c.jobs);
    AlarmsFollowOn(a.alarms, b.alarms, c.alarms);
    GrowsOn(a.reservations, b.reservations, c.reservations);
    GrowsOn(a.snapshots, b.snapshots, c.snapshots);
    hide SitesFollow, ClustersFollow, PlansFollow, JobsFollow, AlarmsFollow, Grows;
  }

  lemma SitesFollowOn(a: map<Id, Site>, b: map<Id, Site>, c: map<Id, Site>)
    requires SitesFollow(a, b) && SitesFollow(b, c)
    ensures SitesFollow(a, c)
  {
  }

  lemma ClustersFollowOn(a: map<Id, Cluster>, b: map<Id, Cluster>, c: map<Id, Cluster>)
    requires ClustersFollow(a, b) && ClustersFollow(b, c)
    ensures ClustersFollow(a, c)
  {
  }

  lemma PlansFollowOn(a: map<Id, Plan>, b: map<Id, Plan>, c: map<Id, Plan>)
    requires PlansFollow(a, b) && PlansFollow(b, c)
    ensures PlansFollow(a, c)
  {
  }

  lemma JobsFollowOn(a: map<Id, Job>, b: map<Id, Job>, c: map<Id, Job>)
    requires JobsFollow(a, b) && JobsFollow(b, c)
    ensures JobsFollow(a, c)
  {
  }

  lemma AlarmsFollowOn(a: map<Id, Alarm>, b: map<Id, Alarm>, c: map<Id, Alarm>)
    requires AlarmsFollow(a, b) && AlarmsFollow(b, c)
    ensures AlarmsFollow(a, c)
  {
  }

  lemma GrowsOn<V>(a: map<Id, V>, b: map<Id, V>, c: map<Id, V>)
    requires Grows(a, b) && Grows(b, c)
    ensures Grows(a, c)
  {
  }

  lemma ClusterWriteFollows(a: Cluster, b: Cluster)
    requires LegalClusterWrite(a, b)
    ensures b.version == a.version + 1 && SameCluster(a, b) && Newer(a, b)
  {
  }

  /** Legal writes make rows follow: versions strictly increase with every write. */
  lemma StepFollows(a: Db, b: Db)
    requires LegalStep(a, b) && PlansOk(a.plans, a.sites) && JobsOk(a.jobs)
    ensures Follows(a, b)
  {
    forall id | id in a.clusters && b.clusters[id] != a.clusters[id]
      ensures b.clusters[id].version == a.clusters[id].version + 1 && SameCluster(a.clusters[id], b.clusters[id]) && Newer(a.clusters[id], b.clusters[id])
    {
      ClusterWriteFollows(a.clusters[id], b.clusters[id]);
    }
    forall id | id in a.plans && b.plans[id] != a.plans[id]
      ensures b.plans[id].version == a.plans[id].version + 1 && SamePlan(a.plans[id], b.plans[id])
    {
      LegalPlanWriteKeeps(a.plans[id], b.plans[id]);
    }
    JobsStepFollows(a.jobs, b.jobs);
    AlarmsStepFollows(a.alarms, b.alarms);
  }

  lemma JobsStepFollows(a: map<Id, Job>, b: map<Id, Job>)
    requires JobsStep(a, b) && JobsOk(a)
    ensures JobsFollow(a, b) && JobsOk(b)
  {
    forall id | id in a && b[id] != a[id]
      ensures b[id].version == a[id].version + 1 && b[id].planId == a[id].planId && b[id].clusterId == a[id].clusterId && JobOk(b[id])
    {
      LegalJobWriteShape(a[id], b[id]);
    }
  }

  lemma AlarmsStepFollows(a: map<Id, Alarm>, b: map<Id, Alarm>)
    requires AlarmsStep(a, b)
    ensures AlarmsFollow(a, b)
  {
    forall id | id in a && b[id] != a[id]
      ensures b[id].version == a[id].version + 1 && b[id].fingerprint == a[id].fingerprint && !a[id].status.Resolved?
    {
      LegalAlarmWriteShape(a[id], b[id]);
    }
  }

  /** Every state of a history is sound, and the last one follows each of them. */
  ghost predicate HistoryInv(h: History) {
    forall i :: 0 <= i < |h| ==> Inv(h[i]) && Follows(h[i], Last(h))
  }

  // ----- What a row read earlier tells about the current one -----

  lemma HistoryAt(h: History, i: nat)
    requires HistoryInv(h) && i < |h|
    ensures Inv(h[i]) && Follows(h[i], Last(h))
  {
    hide Inv, Follows;
  }

  lemma FollowParts(a: Db, b: Db)
    requires Follows(a, b)
    ensures SitesFollow(a.sites, b.sites) && ClustersFollow(a.clusters, b.clusters) && PlansFollow(a.plans, b.plans)
    ensures JobsFollow(a.jobs, b.jobs) && AlarmsFollow(a.alarms, b.alarms)
    ensures Grows(a.reservations, b.reservations) && Grows(a.snapshots, b.snapshots)
  {
    hide SitesFollow, ClustersFollow, PlansFollow, JobsFollow, AlarmsFollow, Grows;
  }

  /** What a row read in an earlier state tells, all tables at once. */
  lemma StateRead(h: History, at: nat)
    requires HistoryInv(h) && at < |h|
    ensures Inv(h[at]) && Inv(Last(h))
    ensures SitesFollow(h[at].sites, Last(h).sites) && ClustersFollow(h[at].clusters, Last(h).clusters)
    ensures PlansFollow(h[at].plans, Last(h).plans) && JobsFollow(h[at].jobs, Last(h).jobs)
    ensures AlarmsFollow(h[at].alarms, Last(h).alarms) && Grows(h[at].reservations, Last(h).reservations)
  {
    hide HistoryInv, Follows, Inv;
    HistoryAt(h, at);
    HistoryAt(h, |h| - 1);
    FollowParts(h[at], Last(h));
  }

  lemma SiteRead(h: History, at: nat, id: Id)
    requires HistoryInv(h) && at < |h| && id in h[at].sites
    ensures id in Last(h).sites
    ensures h[at].sites[id] == Last(h).sites[id] || h[at].sites[id].version < Last(h).sites[id].version
  {
    hide HistoryInv, Inv, ClustersFollow, PlansFollow, JobsFollow, AlarmsFollow, Grows;
    StateRead(h, at);
  }

  lemma ClusterRead(h: History, at: nat, id: Id)
    requires HistoryInv(h) && at < |h| && id in h[at].clusters
    ensures id in Last(h).clusters && SameCluster(h[at].clusters[id], Last(h).clusters[id])
    ensures h[at].clusters[id] == Last(h).clusters[id] || h[at].clusters[id].version < Last(h).clusters[id].version
  {
    hide HistoryInv, Inv, SitesFollow, PlansFollow, JobsFollow, AlarmsFollow, Grows;
    StateRead(h, at);
  }

  lemma StoredPlanIsOk(db: Db, id: Id)
    requires Inv(db) && id in db.plans
    ensures PlanOk(db.plans[id])
  {
    assert PlansOk(db.plans, db.sites);
    hide Inv;
  }

  lemma PlanRead(h: History, at: nat, id: Id)
    requires HistoryInv(h) && at < |h| && id in h[at].plans
    ensures id in Last(h).plans && PlanOk(h[at].plans[id]) && PlanOk(Last(h).plans[id])
    ensures h[at].plans[id] == Last(h).plans[id] || h[at].plans[id].version < Last(h).plans[id].version
  {
    hide HistoryInv, Inv, SitesFollow, ClustersFollow, JobsFollow, AlarmsFollow, Grows;
    StateRead(h, at);
    StoredPlanIsOk(h[at], id);
    StoredPlanIsOk(Last(h), id);
  }

  lemma JobRead(h: History, at: nat, id: Id)
    requires HistoryInv(h) && at < |h| && id in h[at].jobs
    ensures id in Last(h).jobs
    ensures h[at].jobs[id] == Last(h).jobs[id] || h[at].jobs[id].version < Last(h).jobs[id].version
  {
    hide HistoryInv, Inv, SitesFollow, ClustersFollow, PlansFollow, AlarmsFollow, Grows;
    StateRead(h, at);
  }

  lemma AlarmRead(h: History, at: nat, id: Id)
    requires HistoryInv(h) && at < |h| && id in h[at].alarms
    ensures id in Last(h).alarms
    ensures h[at].alarms[id] == Last(h).alarms[id] || h[at].alarms[id].version < Last(h).alarms[id].version
  {
    hide HistoryInv, Inv, SitesFollow, ClustersFollow, PlansFollow, JobsFollow, Grows;
    StateRead(h, at);
  }

  lemma ReservationsRead(h: History, at: nat)
    requires HistoryInv(h) && at < |h|
    ensures Grows(h[at].reservations, Last(h).reservations)
  {
  }

  lemma LastIsSound(h: History)
    requires HistoryInv(h)
    ensures Inv(Last(h))
  {
  }

  lemma NothingHappens(a: Db)
    ensures LegalStep(a, a)
  {
  }

  ghost predicate GoodStep(a: Db, b: Db) { LegalStep(a, b) && Inv(b) }
}
