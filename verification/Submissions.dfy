/**
 * Submit: what it read is still what the guarded transaction meets, and holding the
 * reservations keeps site power, disjointness and every other invariant.
 */
module Submissions {
  import opened Prelude
  import opened Allocation
  import opened Clock
  import opened Sites
  import opened Plans
  import opened Jobs
  import opened Telemetry
  import opened Tables
  import opened Machine
  import opened Invariants
  import opened Preservation

  // ----- What is submitted, as a property of the current tables -----

  function PowerOf(rows: map<Id, Reservation>): map<Id, int> { map id | id in rows :: rows[id].reservedKW }

  /** Rows that hold the whole of a plan's power, each on its own cluster of the plan's site. */
  ghost predicate HoldsPlan(rows: map<Id, Reservation>, planId: Id, plan: Plan, clusters: map<Id, Cluster>) {
    && (forall id :: id in rows ==> RowHolds(rows[id], planId, plan, clusters))
    && (forall a, b :: a in rows && b in rows && a != b ==> rows[a].clusterId != rows[b].clusterId)
    && Sum(PowerOf(rows)) == plan.requestedKW
  }

  ghost predicate RowHolds(r: Reservation, planId: Id, plan: Plan, clusters: map<Id, Cluster>) {
    && r.planId == planId && r.window == plan.window && r.status.Held?
    && r.clusterId in clusters && clusters[r.clusterId].siteId == plan.siteId
    && 0 < r.reservedKW <= clusters[r.clusterId].ratedPowerKW
  }

  /** The rows are new, and clash with no unreleased reservation of their clusters. */
  ghost predicate NoClash(rows: map<Id, Reservation>, reservations: map<Id, Reservation>) {
    && rows.Keys !! reservations.Keys
    && forall id :: id in rows ==> !ConflictExists(reservations, rows[id].clusterId, rows[id].window)
  }

  // ----- Reservations -----

  lemma HeldRowsAreOk(a: Db, rows: map<Id, Reservation>, planId: Id, plan: Plan, clusters: map<Id, Cluster>)
    requires ReservationsOk(a.reservations, a.plans, a.clusters) && NoClash(rows, a.reservations)
    requires planId in a.plans && a.plans[planId].status.Draft? && SamePlan(a.plans[planId], plan) && !plan.status.Draft?
    requires HoldsPlan(rows, planId, plan, a.clusters)
    requires forall c :: c in a.clusters ==> c in clusters && SameCluster(a.clusters[c], clusters[c])
    ensures ReservationsOk(a.reservations + rows, a.plans[planId := plan], clusters)
  {
    hide NoClash, HoldsPlan;
    NoClashMeansNew(rows, a.reservations);
    DraftsHoldNothing(a, planId);
    forall id | id in rows ensures ReservationOk(rows[id], a.plans[planId := plan], clusters) {
      HeldRowIsOk(a, rows, planId, plan, clusters, id);
    }
    forall id | id in a.reservations ensures ReservationOk(a.reservations[id], a.plans[planId := plan], clusters) {
      OldRowStaysOk(a, planId, plan, clusters, id);
    }
    HeldRowsNamePlan(rows, planId, plan, a.clusters);
    hide ReservationOk;
    PairsStayDistinct(a.reservations, rows, planId);
  }

  lemma HeldRowIsOk(a: Db, rows: map<Id, Reservation>, planId: Id, plan: Plan, clusters: map<Id, Cluster>, id: Id)
    requires HoldsPlan(rows, planId, plan, a.clusters) && id in rows && !plan.status.Draft?
    requires forall c :: c in a.clusters ==> c in clusters && SameCluster(a.clusters[c], clusters[c])
    ensures ReservationOk(rows[id], a.plans[planId := plan], clusters)
  {
    assert RowHolds(rows[id], planId, plan, a.clusters);
  }

  lemma OldRowStaysOk(a: Db, planId: Id, plan: Plan, clusters: map<Id, Cluster>, id: Id)
    requires ReservationsOk(a.reservations, a.plans, a.clusters) && id in a.reservations && a.reservations[id].planId != planId
    requires forall c :: c in a.clusters ==> c in clusters && SameCluster(a.clusters[c], clusters[c])
    ensures ReservationOk(a.reservations[id], a.plans[planId := plan], clusters)
  {
    assert ReservationOk(a.reservations[id], a.plans, a.clusters);
  }

  lemma PairsStayDistinct(reservations: map<Id, Reservation>, rows: map<Id, Reservation>, planId: Id)
    requires forall a, b :: a in reservations && b in reservations && a != b ==>
               reservations[a].planId != reservations[b].planId || reservations[a].clusterId != reservations[b].clusterId
    requires forall a, b :: a in rows && b in rows && a != b ==> rows[a].clusterId != rows[b].clusterId
    requires RowsNamePlan(rows, planId) && forall r :: r in reservations ==> reservations[r].planId != planId
    ensures var all := reservations + rows;
            forall a, b :: a in all && b in all && a != b ==> all[a].planId != all[b].planId || all[a].clusterId != all[b].clusterId
  {
  }

  lemma NoClashMeansNew(rows: map<Id, Reservation>, reservations: map<Id, Reservation>)
    requires NoClash(rows, reservations)
    ensures rows.Keys !! reservations.Keys
  {
  }

  lemma DraftsHoldNothing(a: Db, planId: Id)
    requires ReservationsOk(a.reservations, a.plans, a.clusters) && planId in a.plans && a.plans[planId].status.Draft?
    ensures forall r :: r in a.reservations ==> a.reservations[r].planId != planId
  {
    forall r | r in a.reservations ensures a.reservations[r].planId != planId {
      assert ReservationOk(a.reservations[r], a.plans, a.clusters);
    }
  }

  lemma HeldRowsAreDisjoint(reservations: map<Id, Reservation>, rows: map<Id, Reservation>)
    requires Disjoint(reservations) && NoClash(rows, reservations)
    requires forall a, b :: a in rows && b in rows && a != b ==> rows[a].clusterId != rows[b].clusterId
    ensures Disjoint(reservations + rows)
  {
    forall id | id in rows ensures Clear(reservations, rows[id]) {
      ClearUnlessConflict(reservations, rows[id]);
    }
  }

  ghost predicate Clear(reservations: map<Id, Reservation>, row: Reservation) {
    forall r :: r in reservations && reservations[r].clusterId == row.clusterId && !reservations[r].status.Released? ==>
      !reservations[r].window.SqlOverlaps(row.window) && !row.window.SqlOverlaps(reservations[r].window)
  }

  lemma ClearUnlessConflict(reservations: map<Id, Reservation>, row: Reservation)
    requires !ConflictExists(reservations, row.clusterId, row.window)
    ensures Clear(reservations, row)
  {
  }

  // ----- Power -----

  lemma PlanLoadRises(plans: map<Id, Plan>, planId: Id, plan: Plan, siteId: Id)
    requires planId in plans && plans[planId].status.Draft? && SamePlan(plans[planId], plan) && !plan.status.Draft?
    ensures Sum(PlanLoad(plans[planId := plan], siteId))
            == Sum(PlanLoad(plans, siteId)) + (if plan.siteId == siteId then plan.requestedKW else 0)
  {
    var load := if plan.siteId == siteId then plan.requestedKW else 0;
    assert PlanLoad(plans[planId := plan], siteId) == PlanLoad(plans, siteId)[planId := load];
    SumReplace(PlanLoad(plans, siteId), planId, load);
  }

  lemma ReservationLoadRises(a: Db, rows: map<Id, Reservation>, planId: Id, plan: Plan, siteId: Id)
    requires rows.Keys !! a.reservations.Keys
    requires planId in a.plans && SamePlan(a.plans[planId], plan)
    requires forall id :: id in rows ==> rows[id].planId == planId && rows[id].status.Held?
    ensures Sum(ReservationLoad(a.reservations + rows, a.plans[planId := plan], siteId))
            == Sum(ReservationLoad(a.reservations, a.plans, siteId)) + (if plan.siteId == siteId then Sum(PowerOf(rows)) else 0)
  {
    var before := ReservationLoad(a.reservations, a.plans, siteId);
    LoadWithRows(a, rows, planId, plan, siteId);
    hide ReservationLoad, Sum;
    if plan.siteId == siteId {
      SumUnion(before, PowerOf(rows));
    } else {
      SumUnion(before, NoPower(rows));
      SumZero(NoPower(rows));
    }
  }

  ghost function NoPower(rows: map<Id, Reservation>): map<Id, int> { map id | id in rows :: 0 }

  lemma LoadWithRows(a: Db, rows: map<Id, Reservation>, planId: Id, plan: Plan, siteId: Id)
    requires rows.Keys !! a.reservations.Keys
    requires planId in a.plans && SamePlan(a.plans[planId], plan)
    requires forall id :: id in rows ==> rows[id].planId == planId && rows[id].status.Held?
    ensures ReservationLoad(a.reservations + rows, a.plans[planId := plan], siteId)
            == ReservationLoad(a.reservations, a.plans, siteId) + (if plan.siteId == siteId then PowerOf(rows) else NoPower(rows))
    ensures ReservationLoad(a.reservations, a.plans, siteId).Keys !! rows.Keys
  {
  }

  lemma SitePowerIsConserved(a: Db, rows: map<Id, Reservation>, planId: Id, plan: Plan, site: Site)
    requires SitesConserved(a.sites, a.plans, a.reservations) && plan.siteId in a.sites
    requires rows.Keys !! a.reservations.Keys && Sum(PowerOf(rows)) == plan.requestedKW
    requires planId in a.plans && a.plans[planId].status.Draft? && SamePlan(a.plans[planId], plan) && !plan.status.Draft?
    requires forall id :: id in rows ==> rows[id].planId == planId && rows[id].status.Held?
    requires site.reservedKW == a.sites[plan.siteId].reservedKW + plan.requestedKW
    ensures SitesConserved(a.sites[plan.siteId := site], a.plans[planId := plan], a.reservations + rows)
  {
    forall s | s in a.sites
      ensures a.sites[plan.siteId := site][s].reservedKW == Sum(PlanLoad(a.plans[planId := plan], s))
      ensures a.sites[plan.siteId := site][s].reservedKW
              == Sum(ReservationLoad(a.reservations + rows, a.plans[planId := plan], s))
    {
      PlanLoadRises(a.plans, planId, plan, s);
      ReservationLoadRises(a, rows, planId, plan, s);
    }
  }

  lemma HoldRises(reservations: map<Id, Reservation>, rows: map<Id, Reservation>, planId: Id, p: Id)
    requires rows.Keys !! reservations.Keys && forall id :: id in rows ==> rows[id].planId == planId && rows[id].status.Held?
    ensures Sum(PlanHold(reservations + rows, p)) == Sum(PlanHold(reservations, p)) + (if p == planId then Sum(PowerOf(rows)) else 0)
  {
    HoldWithRows(reservations, rows, planId, p);
    hide PlanHold, Sum;
    if p == planId {
      SumUnion(PlanHold(reservations, p), PowerOf(rows));
    } else {
      SumUnion(PlanHold(reservations, p), NoPower(rows));
      SumZero(NoPower(rows));
    }
  }

  lemma HoldWithRows(reservations: map<Id, Reservation>, rows: map<Id, Reservation>, planId: Id, p: Id)
    requires rows.Keys !! reservations.Keys && forall id :: id in rows ==> rows[id].planId == planId && rows[id].status.Held?
    ensures PlanHold(reservations + rows, p) == PlanHold(reservations, p) + (if p == planId then PowerOf(rows) else NoPower(rows))
    ensures PlanHold(reservations, p).Keys !! rows.Keys
  {
  }

  lemma PlanIsCovered(a: Db, rows: map<Id, Reservation>, planId: Id, plan: Plan)
    requires PlansCovered(a.plans, a.reservations)
    requires planId in a.plans && a.plans[planId].status.Draft? && SamePlan(a.plans[planId], plan) && !plan.status.Draft?
    requires rows.Keys !! a.reservations.Keys && Sum(PowerOf(rows)) == plan.requestedKW
    requires forall id :: id in rows ==> rows[id].planId == planId && rows[id].status.Held?
    ensures PlansCovered(a.plans[planId := plan], a.reservations + rows)
  {
    forall p | p in a.plans
      ensures Sum(PlanHold(a.reservations + rows, p))
              == if a.plans[planId := plan][p].status.Draft? then 0 else a.plans[planId := plan][p].requestedKW
    {
      HoldRises(a.reservations, rows, planId, p);
    }
  }

  // ----- Sites, clusters, jobs -----

  lemma SiteTakesPower(sites: map<Id, Site>, id: Id, powerKW: int)
    requires SitesOk(sites) && id in sites && sites[id].status.Active? && 0 < powerKW
    requires sites[id].reservedKW + powerKW <= sites[id].gridLimitKW
    ensures var b := sites[id := TakePower(sites[id], powerKW)]; SitesOk(b) && SitesStep(sites, b)
  {
    assert sites[id].Reserve(powerKW) == Ok(TakePower(sites[id], powerKW));
    assert LegalSiteWrite(sites[id], TakePower(sites[id], powerKW));
    hide LegalSiteWrite;
  }

  lemma ClustersTaken(clusters: map<Id, Cluster>, sites: map<Id, Site>, taken: set<Id>)
    requires ClustersOk(clusters, sites) && forall c :: c in taken ==> c in clusters && clusters[c].status.Available?
    ensures var b := TakeClusters(clusters, taken);
            ClustersOk(b, sites) && ClustersStep(clusters, b)
            && forall c :: c in clusters ==> c in b && SameCluster(clusters[c], b[c])
  {
    forall c | c in taken ensures LegalClusterWrite(clusters[c], Taken(clusters[c])) {
      assert clusters[c].Reserve() == Ok(Taken(clusters[c]));
    }
    hide LegalClusterWrite;
  }

  lemma TakenStayProjected(clusters: map<Id, Cluster>, taken: set<Id>, snapshots: map<Id, Snapshot>)
    requires Projected(clusters, snapshots)
    ensures Projected(TakeClusters(clusters, taken), snapshots)
  {
    var b := TakeClusters(clusters, taken);
    forall c | c in b ensures ProjectedRow(b[c], c, snapshots) {
      SameTelemetryStaysProjected(clusters[c], b[c], c, snapshots);
    }
  }

  lemma OthersKeepTheirJobs(a: Db, rows: map<Id, Reservation>, planId: Id, plan: Plan)
    requires JobsMatch(a.jobs, a.plans, a.reservations) && rows.Keys !! a.reservations.Keys
    requires planId in a.plans && a.plans[planId].status.Draft? && plan.status.Submitted?
    requires forall id :: id in rows ==> rows[id].planId == planId
    ensures JobsMatch(a.jobs, a.plans[planId := plan], a.reservations + rows)
  {
    forall p | p in a.plans && p != planId ensures HeldClusters(a.reservations + rows, p) == HeldClusters(a.reservations, p) {
      OtherHoldings(a.reservations, rows, planId, p);
    }
    hide HeldClusters, JobClusters;
  }

  lemma OtherHoldings(reservations: map<Id, Reservation>, rows: map<Id, Reservation>, planId: Id, p: Id)
    requires rows.Keys !! reservations.Keys && p != planId && forall id :: id in rows ==> rows[id].planId == planId
    ensures HeldClusters(reservations + rows, p) == HeldClusters(reservations, p)
  {
    var all := reservations + rows;
    assert forall id :: id in all && all[id].planId == p ==> id in reservations && all[id] == reservations[id];
    assert forall id :: id in reservations ==> id in all && all[id] == reservations[id];
  }

  // ----- The whole step -----

  ghost function Submitted(a: Db, rows: map<Id, Reservation>, planId: Id, plan: Plan, taken: set<Id>): Db
    requires plan.siteId in a.sites
  {
    a.(sites := a.sites[plan.siteId := TakePower(a.sites[plan.siteId], plan.requestedKW)],
       clusters := TakeClusters(a.clusters, taken),
       plans := a.plans[planId := plan],
       reservations := a.reservations + rows)
  }

  lemma SubmissionMoves(a: Db, sites: map<Id, Site>, clusters: map<Id, Cluster>, plans: map<Id, Plan>, rows: map<Id, Reservation>)
    requires SitesStep(a.sites, sites) && ClustersStep(a.clusters, clusters) && PlansStep(a.plans, plans)
    requires rows.Keys !! a.reservations.Keys
    ensures LegalStep(a, a.(sites := sites, clusters := clusters, plans := plans, reservations := a.reservations + rows))
  {
    NothingHappens(a);
    assert Grows(a.reservations, a.reservations + rows);
    hide SitesStep, ClustersStep, PlansStep, JobsStep, AlarmsStep, Grows, SnapshotsStep;
  }

  lemma SubmissionIsLegal(before: Plan, count: int, powerKW: int, after: Plan)
    requires before.Submit(count, powerKW) == Ok(after)
    ensures LegalPlanWrite(before, after) && SamePlan(before, after) && before.status.Draft? && after.status.Submitted?
  {
  }

  ghost predicate RowsNamePlan(rows: map<Id, Reservation>, planId: Id) {
    forall id :: id in rows ==> rows[id].planId == planId && rows[id].status.Held?
  }

  lemma HeldRowsNamePlan(rows: map<Id, Reservation>, planId: Id, plan: Plan, clusters: map<Id, Cluster>)
    requires HoldsPlan(rows, planId, plan, clusters)
    ensures RowsNamePlan(rows, planId) && Sum(PowerOf(rows)) == plan.requestedKW
    ensures forall a, b :: a in rows && b in rows && a != b ==> rows[a].clusterId != rows[b].clusterId
  {
  }

  lemma PowerIsHeld(a: Db, rows: map<Id, Reservation>, planId: Id, plan: Plan)
    requires Inv(a) && planId in a.plans && a.plans[planId].status.Draft? && SamePlan(a.plans[planId], plan) && plan.status.Submitted?
    requires RowsNamePlan(rows, planId) && NoClash(rows, a.reservations) && Sum(PowerOf(rows)) == plan.requestedKW
    requires plan.siteId in a.sites
    ensures var sites := a.sites[plan.siteId := TakePower(a.sites[plan.siteId], plan.requestedKW)];
            SitesConserved(sites, a.plans[planId := plan], a.reservations + rows)
    ensures PlansCovered(a.plans[planId := plan], a.reservations + rows)
    ensures JobsMatch(a.jobs, a.plans[planId := plan], a.reservations + rows)
  {
    Parts(a);
    hide Inv, SitesConserved, PlansCovered, JobsMatch, ConflictExists;
    SitePowerIsConserved(a, rows, planId, plan, TakePower(a.sites[plan.siteId], plan.requestedKW));
    PlanIsCovered(a, rows, planId, plan);
    OthersKeepTheirJobs(a, rows, planId, plan);
  }

  lemma SubmittedIs(a: Db, rows: map<Id, Reservation>, planId: Id, plan: Plan, taken: set<Id>)
    requires plan.siteId in a.sites
    ensures Submitted(a, rows, planId, plan, taken)
            == a.(sites := a.sites[plan.siteId := TakePower(a.sites[plan.siteId], plan.requestedKW)],
                  clusters := TakeClusters(a.clusters, taken), plans := a.plans[planId := plan], reservations := a.reservations + rows)
  {
  }

  lemma PlanSubmitted(a: Db, rows: map<Id, Reservation>, planId: Id, plan: Plan, count: int, taken: set<Id>)
    requires Inv(a) && planId in a.plans && a.plans[planId].Submit(count, plan.requestedKW) == Ok(plan)
    requires plan.siteId in a.sites && a.sites[plan.siteId].status.Active?
    requires a.sites[plan.siteId].reservedKW + plan.requestedKW <= a.sites[plan.siteId].gridLimitKW && plan.requestedKW > 0
    requires HoldsPlan(rows, planId, plan, a.clusters) && NoClash(rows, a.reservations)
    requires forall c :: c in taken ==> c in a.clusters && a.clusters[c].status.Available?
    ensures GoodStep(a, Submitted(a, rows, planId, plan, taken))
  {
    var (sites, clusters) := (a.sites[plan.siteId := TakePower(a.sites[plan.siteId], plan.requestedKW)],
                              TakeClusters(a.clusters, taken));
    var (plans, reservations) := (a.plans[planId := plan], a.reservations + rows);
    hide *;
    SubmissionIsLegal(a.plans[planId], count, plan.requestedKW, plan);
    SubmittedIs(a, rows, planId, plan, taken);
    RowsStaySound(a, planId, plan, taken);
    HoldingsStaySound(a, rows, planId, plan, taken);
    Parts(a);
    NoClashMeansNew(rows, a.reservations);
    SubmissionMoves(a, sites, clusters, plans, rows);
    Whole(a, a.(sites := sites, clusters := clusters, plans := plans, reservations := reservations));
  }

  /** The rows of the submission's site, clusters and plan. */
  lemma RowsStaySound(a: Db, planId: Id, plan: Plan, taken: set<Id>)
    requires Inv(a) && planId in a.plans && LegalPlanWrite(a.plans[planId], plan)
    requires plan.siteId in a.sites && a.sites[plan.siteId].status.Active?
    requires a.sites[plan.siteId].reservedKW + plan.requestedKW <= a.sites[plan.siteId].gridLimitKW && plan.requestedKW > 0
    requires forall c :: c in taken ==> c in a.clusters && a.clusters[c].status.Available?
    ensures var (sites, clusters, plans) := (a.sites[plan.siteId := TakePower(a.sites[plan.siteId], plan.requestedKW)],
                                             TakeClusters(a.clusters, taken), a.plans[planId := plan]);
            && SitesOk(sites) && ClustersOk(clusters, sites) && PlansOk(plans, sites) && Projected(clusters, a.snapshots)
            && SitesStep(a.sites, sites) && ClustersStep(a.clusters, clusters) && PlansStep(a.plans, plans)
            && forall c :: c in a.clusters ==> c in clusters && SameCluster(a.clusters[c], clusters[c])
  {
    hide *;
    Parts(a);
    var sites := a.sites[plan.siteId := TakePower(a.sites[plan.siteId], plan.requestedKW)];
    assert a.sites.Keys <= sites.Keys;
    SiteTakesPower(a.sites, plan.siteId, plan.requestedKW);
    ClustersTaken(a.clusters, a.sites, taken);
    PlanRowMoves(a.plans, a.sites, planId, plan);
    MoreSites(a.sites, sites, TakeClusters(a.clusters, taken), a.plans[planId := plan]);
    TakenStayProjected(a.clusters, taken, a.snapshots);
  }

  /** Reservations, loads and jobs. */
  lemma HoldingsStaySound(a: Db, rows: map<Id, Reservation>, planId: Id, plan: Plan, taken: set<Id>)
    requires Inv(a) && planId in a.plans && a.plans[planId].status.Draft? && SamePlan(a.plans[planId], plan) && plan.status.Submitted?
    requires plan.siteId in a.sites && HoldsPlan(rows, planId, plan, a.clusters) && NoClash(rows, a.reservations)
    requires var clusters := TakeClusters(a.clusters, taken);
             forall c :: c in a.clusters ==> c in clusters && SameCluster(a.clusters[c], clusters[c])
    ensures var (sites, plans, reservations) := (a.sites[plan.siteId := TakePower(a.sites[plan.siteId], plan.requestedKW)],
                                                 a.plans[planId := plan], a.reservations + rows);
            && ReservationsOk(reservations, plans, TakeClusters(a.clusters, taken)) && Disjoint(reservations)
            && SitesConserved(sites, plans, reservations) && PlansCovered(plans, reservations) && JobsMatch(a.jobs, plans, reservations)
  {
    hide *;
    Parts(a);
    HeldRowsNamePlan(rows, planId, plan, a.clusters);
    PowerIsHeld(a, rows, planId, plan);
    HeldRowsAreOk(a, rows, planId, plan, TakeClusters(a.clusters, taken));
    HeldRowsAreDisjoint(a.reservations, rows);
  }

  // ----- From what Submit read to what it meets -----

  ghost predicate Selectable(plan: Plan, clusterIds: seq<Id>, rows: seq<Cluster>, order: seq<Id>)
    requires |clusterIds| == |rows|
  {
    && Distinct(clusterIds) && (forall i :: 0 <= i < |rows| ==> ClusterAccepted(plan, clusterIds[i], rows[i]))
    && var ratings := Zip(clusterIds, RatingsOf(rows));
       Enumerates(order, ratings.Keys) && 0 < plan.requestedKW <= Sum(ratings)
  }

  ghost function Shares(plan: Plan, clusterIds: seq<Id>, rows: seq<Cluster>, order: seq<Id>): map<Id, int>
    requires |clusterIds| == |rows| && Selectable(plan, clusterIds, rows, order)
  {
    var ratings := Zip(clusterIds, RatingsOf(rows));
    assert forall id :: id in order ==> id in ratings.Keys;
    Allocate(order, ratings, plan.requestedKW, Sum(ratings))
  }

  /** The shares are exactly the plan's power, each within its cluster's rating. */
  lemma SharesAreExact(plan: Plan, clusterIds: seq<Id>, rows: seq<Cluster>, order: seq<Id>)
    requires |clusterIds| == |rows| && Selectable(plan, clusterIds, rows, order)
    ensures var shares := Shares(plan, clusterIds, rows, order);
            && Sum(shares) == plan.requestedKW && shares.Keys == (set id | id in clusterIds)
            && forall i :: 0 <= i < |rows| ==> 0 <= shares[clusterIds[i]] <= rows[i].ratedPowerKW
  {
    var ratings := Zip(clusterIds, RatingsOf(rows));
    forall id | id in ratings ensures ratings[id] > 0 {
      var i :| 0 <= i < |clusterIds| && clusterIds[i] == id;
      assert ClusterAccepted(plan, clusterIds[i], rows[i]);
    }
    hide ClusterAccepted, Allocate, Zip;
    AllocationIsExact(order, ratings, plan.requestedKW);
  }

  function Powers(rows: seq<Reservation>): seq<int> { seq(|rows|, i requires 0 <= i < |rows| => rows[i].reservedKW) }

  lemma ZipPowers(ids: seq<Id>, rows: seq<Reservation>)
    requires |ids| == |rows| && Distinct(ids)
    ensures PowerOf(Zip(ids, rows)) == Zip(ids, Powers(rows))
  {
    hide Zip;
    forall id | id in ids ensures Zip(ids, rows)[id].reservedKW == Zip(ids, Powers(rows))[id] {
      var i :| 0 <= i < |ids| && ids[i] == id;
      assert Zip(ids, rows)[ids[i]] == rows[i] && Zip(ids, Powers(rows))[ids[i]] == Powers(rows)[i];
    }
  }

  lemma ZipShares(planId: Id, plan: Plan, clusterIds: seq<Id>, shares: map<Id, int>)
    requires Distinct(clusterIds) && shares.Keys == (set id | id in clusterIds)
    ensures Zip(clusterIds, Powers(ReservationRows(planId, plan, clusterIds, shares))) == shares
  {
    hide Zip;
    var powers := Powers(ReservationRows(planId, plan, clusterIds, shares));
    forall id | id in clusterIds ensures Zip(clusterIds, powers)[id] == shares[id] {
      var i :| 0 <= i < |clusterIds| && clusterIds[i] == id;
      assert Zip(clusterIds, powers)[clusterIds[i]] == powers[i];
    }
  }

  /** Listed under any distinct identifiers, the rows hold the plan's power. */
  lemma RowsHoldPower(planId: Id, plan: Plan, clusterIds: seq<Id>, shares: map<Id, int>, ids: seq<Id>)
    requires Distinct(clusterIds) && Distinct(ids) && |ids| == |clusterIds| && shares.Keys == (set id | id in clusterIds)
    ensures Sum(PowerOf(Zip(ids, ReservationRows(planId, plan, clusterIds, shares)))) == Sum(shares)
  {
    var rows := ReservationRows(planId, plan, clusterIds, shares);
    SumZipRekeyed(clusterIds, ids, Powers(rows));
    ZipPowers(ids, rows);
    ZipShares(planId, plan, clusterIds, shares);
  }

  /** What a submission says, once Submit has computed it. */
  lemma PrepareMeans(actor: Id, planId: Id, expected: int, plan: Plan, site: Site, clusterIds: seq<Id>, rows: seq<Cluster>,
                     order: seq<Id>, ids: seq<Id>)
    requires |clusterIds| == |rows| == |ids|
    requires Prepare(actor, planId, expected, plan, site, clusterIds, rows, order, ids).Some?
    ensures plan.createdBy == actor && plan.version == expected && Selectable(plan, clusterIds, rows, order)
    ensures site.status.Active? && clusterIds != [] && plan.window.start < plan.window.end && !Blank(planId)
    ensures var (s, shares) := (Prepare(actor, planId, expected, plan, site, clusterIds, rows, order, ids).value,
                                Shares(plan, clusterIds, rows, order));
            && plan.Submit(|clusterIds|, plan.requestedKW) == Ok(s.plan)
            && (forall id :: id in clusterIds ==> id in shares && shares[id] > 0)
            && s == Submission(planId, s.plan, plan.version, ids, ReservationRows(planId, plan, clusterIds, shares),
                               plan.siteId, plan.requestedKW, site.version)
  {
    EnumerationTotal(order, Zip(clusterIds, RatingsOf(rows)));
    RowsPassIff(plan, clusterIds, rows);
    hide Allocate, TotalAlong, Zip, ClusterAccepted, RowPasses, Blank;
  }

  lemma ShareHolds(planId: Id, plan: Plan, id: Id, row: Cluster, clusters: map<Id, Cluster>, held: Reservation)
    requires ClusterAccepted(plan, id, row) && id in clusters && SameCluster(row, clusters[id])
    requires held == Reservation(planId, id, held.reservedKW, plan.window, Held) && 0 < held.reservedKW <= row.ratedPowerKW
    ensures RowHolds(held, planId, plan, clusters)
  {
  }

  /** The rows computed from stale cluster rows hold the plan on the current ones: their fixed columns are the same. */
  lemma RowsHoldPlan(planId: Id, plan: Plan, clusterIds: seq<Id>, rows: seq<Cluster>, order: seq<Id>, ids: seq<Id>, clusters: map<Id, Cluster>)
    requires |clusterIds| == |rows| == |ids| && Selectable(plan, clusterIds, rows, order) && Distinct(ids)
    requires forall id :: id in clusterIds ==> id in Shares(plan, clusterIds, rows, order) && Shares(plan, clusterIds, rows, order)[id] > 0
    requires forall i :: 0 <= i < |rows| ==> clusterIds[i] in clusters && SameCluster(rows[i], clusters[clusterIds[i]])
    ensures HoldsPlan(Zip(ids, ReservationRows(planId, plan, clusterIds, Shares(plan, clusterIds, rows, order))), planId, plan, clusters)
  {
    var shares := Shares(plan, clusterIds, rows, order);
    SharesAreExact(plan, clusterIds, rows, order);
    RowsHoldPower(planId, plan, clusterIds, shares, ids);
    var held := ReservationRows(planId, plan, clusterIds, shares);
    hide Shares, RowHolds, Zip, SameCluster, ClusterAccepted;
    forall i | 0 <= i < |rows| ensures RowHolds(held[i], planId, plan, clusters) {
      ShareHolds(planId, plan, clusterIds[i], rows[i], clusters, held[i]);
    }
    ZipHolds(ids, held, planId, plan, clusters);
  }

  lemma ZipHolds(ids: seq<Id>, rows: seq<Reservation>, planId: Id, plan: Plan, clusters: map<Id, Cluster>)
    requires |ids| == |rows| && Distinct(ids) && (forall i :: 0 <= i < |rows| ==> RowHolds(rows[i], planId, plan, clusters))
    requires DistinctClusters(rows) && Sum(PowerOf(Zip(ids, rows))) == plan.requestedKW
    ensures HoldsPlan(Zip(ids, rows), planId, plan, clusters)
  {
    hide RowHolds, Zip, PowerOf;
    ZippedRowsHold(ids, rows, planId, plan, clusters);
    ZippedClustersDiffer(ids, rows);
  }

  lemma ZippedRowsHold(ids: seq<Id>, rows: seq<Reservation>, planId: Id, plan: Plan, clusters: map<Id, Cluster>)
    requires |ids| == |rows| && Distinct(ids) && (forall i :: 0 <= i < |rows| ==> RowHolds(rows[i], planId, plan, clusters))
    ensures forall id :: id in Zip(ids, rows) ==> RowHolds(Zip(ids, rows)[id], planId, plan, clusters)
  {
    hide RowHolds, Zip;
    forall id | id in ids ensures RowHolds(Zip(ids, rows)[id], planId, plan, clusters) {
      var i :| 0 <= i < |ids| && ids[i] == id;
      assert Zip(ids, rows)[ids[i]] == rows[i];
    }
  }

  lemma ZippedClustersDiffer(ids: seq<Id>, rows: seq<Reservation>)
    requires |ids| == |rows| && Distinct(ids) && DistinctClusters(rows)
    ensures var held := Zip(ids, rows); forall a, b :: a in held && b in held && a != b ==> held[a].clusterId != held[b].clusterId
  {
    hide Zip;
    forall a, b | a in ids && b in ids && a != b ensures Zip(ids, rows)[a].clusterId != Zip(ids, rows)[b].clusterId {
      var i :| 0 <= i < |ids| && ids[i] == a;
      var j :| 0 <= j < |ids| && ids[j] == b;
      assert Zip(ids, rows)[ids[i]] == rows[i] && Zip(ids, rows)[ids[j]] == rows[j];
    }
  }

  lemma RowsDoNotClash(db: Db, s: Submission)
    requires |s.ids| == |s.rows| && CanSubmit(db, s)
    ensures NoClash(Zip(s.ids, s.rows), db.reservations) && Distinct(s.ids)
    ensures forall c :: c in ClustersOf(s.rows) ==> c in db.clusters && db.clusters[c].status.Available?
  {
    var held := Zip(s.ids, s.rows);
    forall id | id in held ensures id !in db.reservations && !ConflictExists(db.reservations, held[id].clusterId, held[id].window) {
      var i :| 0 <= i < |s.ids| && s.ids[i] == id;
      assert held[id] == s.rows[i] && RowFits(db, s.ids[i], s.rows[i]);
    }
    forall c | c in ClustersOf(s.rows) ensures c in db.clusters && db.clusters[c].status.Available? {
      var i :| 0 <= i < |s.rows| && s.rows[i].clusterId == c;
      assert RowFits(db, s.ids[i], s.rows[i]);
    }
  }

  /** The rows that Submit read and computed with, and the submission it made of them. */
  lemma RequestMeans(h: History, c: Call)
    requires c.SubmitPlan? && Requested(h, c).Some?
    ensures c.at < |h| && c.siteAt < |h| && c.planId in h[c.at].plans && h[c.at].plans[c.planId].siteId in h[c.siteAt].sites
    ensures ClustersRead(h, c.clusterIds, c.clustersAt) && |c.ids| == |c.clusterIds|
    ensures var plan := h[c.at].plans[c.planId];
            Requested(h, c) == Prepare(c.actor, c.planId, c.expected, plan, h[c.siteAt].sites[plan.siteId], c.clusterIds,
                                       ClusterRows(h, c.clusterIds, c.clustersAt), c.order, c.ids)
  {
    hide Prepare;
  }

  lemma SubmitMeets(db: Db, s: Submission, audited: bool)
    requires |s.ids| == |s.rows| && SubmitTx(db, s, audited).Some?
    ensures CanSubmit(db, s) && s.planId in db.plans && db.plans[s.planId].version == s.expectedPlan
    ensures s.siteId in db.sites && db.sites[s.siteId].version == s.expectedSite && db.sites[s.siteId].status.Active?
    ensures db.sites[s.siteId].reservedKW + s.sitePower <= db.sites[s.siteId].gridLimitKW
  {
    hide AllFit, ConflictExists, Hold;
  }

  /** The transaction writes the plan that was computed, when it was computed from the row it meets. */
  lemma SubmitWrites(db: Db, s: Submission, audited: bool, count: int)
    requires |s.ids| == |s.rows| && SubmitTx(db, s, audited).Some? && s.planId in db.plans
    requires db.plans[s.planId].Submit(count, s.sitePower) == Ok(s.plan) && s.siteId == s.plan.siteId && s.siteId in db.sites
    requires s.sitePower == s.plan.requestedKW
    ensures SubmitTx(db, s, audited)
            == Some(Submitted(db, Zip(s.ids, s.rows), s.planId, s.plan, ClustersOf(s.rows)))
  {
    hide CanSubmit, Zip, TakeClusters, ClustersOf;
  }

  lemma ClustersReadAreCurrent(h: History, clusterIds: seq<Id>, clustersAt: seq<nat>)
    requires HistoryInv(h) && ClustersRead(h, clusterIds, clustersAt)
    ensures var rows := ClusterRows(h, clusterIds, clustersAt);
            forall i :: 0 <= i < |rows| ==> clusterIds[i] in Last(h).clusters && SameCluster(rows[i], Last(h).clusters[clusterIds[i]])
  {
    forall i | 0 <= i < |clusterIds|
      ensures clusterIds[i] in Last(h).clusters
              && SameCluster(h[clustersAt[i]].clusters[clusterIds[i]], Last(h).clusters[clusterIds[i]])
    {
      ClusterRead(h, clustersAt[i], clusterIds[i]);
    }
    hide HistoryInv, SameCluster;
  }

  /**
   * A submission that commits was computed from the very plan and site rows it meets, on
   * clusters whose fixed columns are still the same.
   */
  lemma SubmissionMeetsReads(h: History, c: Call)
    requires HistoryInv(h) && c.SubmitPlan? && TrySubmit(h, c).Some?
    ensures Requested(h, c).Some? && c.at < |h| && c.siteAt < |h| && c.planId in h[c.at].plans && c.planId in Last(h).plans
    ensures h[c.at].plans[c.planId] == Last(h).plans[c.planId]
    ensures var siteId := Last(h).plans[c.planId].siteId;
            siteId in Last(h).sites && siteId in h[c.siteAt].sites && h[c.siteAt].sites[siteId] == Last(h).sites[siteId]
    ensures ClustersRead(h, c.clusterIds, c.clustersAt) && |c.ids| == |c.clusterIds|
  {
    var s := Requested(h, c).value;
    assert SubmitTx(Last(h), s, c.audited).Some?;
    RequestMeans(h, c);
    var plan := h[c.at].plans[c.planId];
    PlanRead(h, c.at, c.planId);
    SiteRead(h, c.siteAt, plan.siteId);
    hide HistoryInv, Requested, TrySubmit, Prepare, SubmitTx, Shares, PlanOk;
    PrepareMeans(c.actor, c.planId, c.expected, plan, h[c.siteAt].sites[plan.siteId], c.clusterIds,
                 ClusterRows(h, c.clusterIds, c.clustersAt), c.order, c.ids);
    SubmitMeets(Last(h), s, c.audited);
  }

  lemma SubmitPlanKeeps(h: History, c: Call)
    requires HistoryInv(h) && c.SubmitPlan? && TrySubmit(h, c).Some?
    ensures GoodStep(Last(h), TrySubmit(h, c).value)
  {
    var (db, s) := (Last(h), Requested(h, c).value);
    assert TrySubmit(h, c) == SubmitTx(db, s, c.audited);
    SubmissionMeetsReads(h, c);
    RequestMeans(h, c);
    LastIsSound(h);
    var (plan, rows) := (db.plans[c.planId], ClusterRows(h, c.clusterIds, c.clustersAt));
    ClustersReadAreCurrent(h, c.clusterIds, c.clustersAt);
    PrepareMeans(c.actor, c.planId, c.expected, plan, db.sites[plan.siteId], c.clusterIds, rows, c.order, c.ids);
    hide HistoryInv, Inv, GoodStep, Requested, TrySubmit, Prepare, SubmitTx, Shares, PlanOk, HoldsPlan, SameCluster, Zip;
    assert s.siteId in db.sites && |s.ids| == |s.rows|;
    SubmissionIsNew(db, s, c.audited);
    RowsHoldPlan(c.planId, plan, c.clusterIds, rows, c.order, c.ids, db.clusters);
    SubmissionCommits(db, s, c.audited, |c.clusterIds|, plan);
  }

  lemma SubmissionIsNew(db: Db, s: Submission, audited: bool)
    requires |s.ids| == |s.rows| && SubmitTx(db, s, audited).Some?
    ensures Distinct(s.ids)
  {
    SubmitMeets(db, s, audited);
    hide SubmitTx;
  }

  lemma SubmissionCommits(db: Db, s: Submission, audited: bool, count: int, plan: Plan)
    requires Inv(db) && |s.ids| == |s.rows| && SubmitTx(db, s, audited).Some?
    requires s.planId in db.plans && db.plans[s.planId] == plan && plan.Submit(count, s.sitePower) == Ok(s.plan)
    requires s.siteId == plan.siteId && s.siteId in db.sites && s.sitePower == plan.requestedKW > 0
    requires HoldsPlan(Zip(s.ids, s.rows), s.planId, plan, db.clusters)
    ensures GoodStep(db, SubmitTx(db, s, audited).value)
  {
    hide Inv, GoodStep, SubmitTx, HoldsPlan, NoClash, CanSubmit, Zip, Submitted;
    SubmitMeets(db, s, audited);
    RowsDoNotClash(db, s);
    HoldsForSubmitted(Zip(s.ids, s.rows), s.planId, plan, s.plan, db.clusters);
    PlanSubmitted(db, Zip(s.ids, s.rows), s.planId, s.plan, count, ClustersOf(s.rows));
    SubmitWrites(db, s, audited, count);
  }

  lemma HoldsForSubmitted(rows: map<Id, Reservation>, planId: Id, draft: Plan, plan: Plan, clusters: map<Id, Cluster>)
    requires HoldsPlan(rows, planId, draft, clusters) && SamePlan(draft, plan)
    ensures HoldsPlan(rows, planId, plan, clusters)
  {
    forall id | id in rows ensures RowHolds(rows[id], planId, plan, clusters) {
      assert RowHolds(rows[id], planId, draft, clusters);
    }
  }

  // ----- When Submit gets as far as its transaction -----

  /** The loop over the selected clusters finds nothing wrong. */
  ghost predicate Chosen(h: History, plan: Plan, clusterIds: seq<Id>, clustersAt: seq<nat>) {
    && Distinct(clusterIds) && ClustersRead(h, clusterIds, clustersAt)
    && forall i :: 0 <= i < |clusterIds| ==> ClusterChosen(plan, h[clustersAt[i]].clusters[clusterIds[i]])
  }

  ghost predicate Ready(h: History, c: Call)
    requires c.SubmitPlan?
  {
    && c.at < |h| && c.siteAt < |h| && |c.ids| == |c.clusterIds| && c.planId in h[c.at].plans
    && var plan := h[c.at].plans[c.planId];
       && plan.createdBy == c.actor && plan.version == c.expected
       && plan.siteId in h[c.siteAt].sites && h[c.siteAt].sites[plan.siteId].status.Active?
       && Chosen(h, plan, c.clusterIds, c.clustersAt)
       && Accepted(c.planId, plan, c.clusterIds, ClusterRows(h, c.clusterIds, c.clustersAt), c.order)
  }

  /** What is checked from the allocation on. */
  ghost predicate Accepted(planId: Id, plan: Plan, clusterIds: seq<Id>, rows: seq<Cluster>, order: seq<Id>)
    requires |clusterIds| == |rows|
  {
    && clusterIds != [] && Selectable(plan, clusterIds, rows, order)
    && plan.status.Draft? && plan.window.start < plan.window.end && !Blank(planId)
    && forall id :: id in clusterIds ==> id in Shares(plan, clusterIds, rows, order) && Shares(plan, clusterIds, rows, order)[id] > 0
  }

  lemma PreparesIfAccepted(actor: Id, planId: Id, expected: int, plan: Plan, site: Site, clusterIds: seq<Id>, rows: seq<Cluster>,
                           order: seq<Id>, ids: seq<Id>)
    requires |clusterIds| == |rows| == |ids|
    requires plan.createdBy == actor && plan.version == expected && site.status.Active?
    requires Accepted(planId, plan, clusterIds, rows, order)
    ensures Prepare(actor, planId, expected, plan, site, clusterIds, rows, order, ids).Some?
  {
    EnumerationTotal(order, Zip(clusterIds, RatingsOf(rows)));
    RowsPassIff(plan, clusterIds, rows);
    hide Allocate, TotalAlong, Zip, ClusterAccepted, RowPasses, Blank;
  }

  lemma AcceptedAreChosen(h: History, plan: Plan, clusterIds: seq<Id>, clustersAt: seq<nat>, order: seq<Id>)
    requires ClustersRead(h, clusterIds, clustersAt) && Selectable(plan, clusterIds, ClusterRows(h, clusterIds, clustersAt), order)
    ensures Chosen(h, plan, clusterIds, clustersAt)
  {
    var rows := ClusterRows(h, clusterIds, clustersAt);
    forall i | 0 <= i < |clusterIds| ensures ClusterChosen(plan, rows[i]) {
      assert ClusterAccepted(plan, clusterIds[i], rows[i]);
    }
  }

  /** Submit reaches its transaction exactly when it is ready. */
  lemma RequestedIffReady(h: History, c: Call)
    requires c.SubmitPlan?
    ensures Requested(h, c).Some? <==> Ready(h, c)
  {
    hide Prepare, Accepted, Chosen;
    if Requested(h, c).Some? {
      RequestMeans(h, c);
      var (plan, rows) := (h[c.at].plans[c.planId], ClusterRows(h, c.clusterIds, c.clustersAt));
      PreparedIsAccepted(c.actor, c.planId, c.expected, plan, h[c.siteAt].sites[plan.siteId], c.clusterIds, rows, c.order, c.ids);
      AcceptedAreChosen(h, plan, c.clusterIds, c.clustersAt, c.order);
    }
    if Ready(h, c) {
      var plan := h[c.at].plans[c.planId];
      ChosenAreRead(h, plan, c.clusterIds, c.clustersAt);
      PreparesIfAccepted(c.actor, c.planId, c.expected, plan, h[c.siteAt].sites[plan.siteId], c.clusterIds,
                         ClusterRows(h, c.clusterIds, c.clustersAt), c.order, c.ids);
    }
  }

  lemma ChosenAreRead(h: History, plan: Plan, clusterIds: seq<Id>, clustersAt: seq<nat>)
    requires Chosen(h, plan, clusterIds, clustersAt)
    ensures ClustersRead(h, clusterIds, clustersAt) && Distinct(clusterIds)
  {
  }

  lemma PreparedIsAccepted(actor: Id, planId: Id, expected: int, plan: Plan, site: Site, clusterIds: seq<Id>, rows: seq<Cluster>,
                           order: seq<Id>, ids: seq<Id>)
    requires |clusterIds| == |rows| == |ids|
    requires Prepare(actor, planId, expected, plan, site, clusterIds, rows, order, ids).Some?
    ensures plan.createdBy == actor && plan.version == expected && site.status.Active?
    ensures Accepted(planId, plan, clusterIds, rows, order) && Selectable(plan, clusterIds, rows, order)
  {
    PrepareMeans(actor, planId, expected, plan, site, clusterIds, rows, order, ids);
    hide Prepare, Shares, Selectable;
  }

  /** Rows read earlier stay readable in a longer history. */
  lemma ChosenGrows(h: History, longer: History, plan: Plan, clusterIds: seq<Id>, clustersAt: seq<nat>)
    requires h <= longer && Chosen(h, plan, clusterIds, clustersAt)
    ensures Chosen(longer, plan, clusterIds, clustersAt)
    ensures ClustersRead(h, clusterIds, clustersAt) && ClustersRead(longer, clusterIds, clustersAt)
    ensures ClusterRows(h, clusterIds, clustersAt) == ClusterRows(longer, clusterIds, clustersAt)
  {
    hide ClusterChosen;
  }

  ghost predicate Allocatable(plan: Plan, ratings: map<Id, int>) {
    0 < plan.requestedKW <= Sum(ratings) && ratings != map[] && forall id :: id in ratings ==> ValidRating(id, ratings[id])
  }

  lemma RatingsAt(clusterIds: seq<Id>, rows: seq<Cluster>, id: Id)
    requires |clusterIds| == |rows| && Distinct(clusterIds) && id in Zip(clusterIds, RatingsOf(rows))
    ensures exists i :: 0 <= i < |rows| && clusterIds[i] == id && Zip(clusterIds, RatingsOf(rows))[id] == rows[i].ratedPowerKW
  {
    var i :| 0 <= i < |rows| && clusterIds[i] == id;
    assert Zip(clusterIds, RatingsOf(rows))[clusterIds[i]] == RatingsOf(rows)[i];
  }

  /** Submit is stopped by the allocation exactly when the selection is not selectable. */
  lemma AllocatableIffSelectable(plan: Plan, clusterIds: seq<Id>, rows: seq<Cluster>, order: seq<Id>)
    requires |clusterIds| == |rows| && Distinct(clusterIds) && forall i :: 0 <= i < |rows| ==> ClusterChosen(plan, rows[i])
    ensures clusterIds != [] && Selectable(plan, clusterIds, rows, order) ==> Allocatable(plan, Zip(clusterIds, RatingsOf(rows)))
    ensures Allocatable(plan, Zip(clusterIds, RatingsOf(rows))) && Enumerates(order, Zip(clusterIds, RatingsOf(rows)).Keys) ==>
              clusterIds != [] && Selectable(plan, clusterIds, rows, order)
  {
    var ratings := Zip(clusterIds, RatingsOf(rows));
    forall i | 0 <= i < |rows| ensures clusterIds[i] in ratings && ratings[clusterIds[i]] == rows[i].ratedPowerKW {
      assert ratings[clusterIds[i]] == RatingsOf(rows)[i];
    }
    if clusterIds != [] { assert clusterIds[0] in ratings; }
    hide Zip, ClusterChosen, ValidRating, Enumerates;
    forall id | id in ratings && Selectable(plan, clusterIds, rows, order) ensures ValidRating(id, ratings[id]) {
      RatingsAt(clusterIds, rows, id);
      var i :| 0 <= i < |rows| && clusterIds[i] == id && ratings[id] == rows[i].ratedPowerKW;
      assert ClusterAccepted(plan, clusterIds[i], rows[i]);
    }
  }

  /** Once ready, Submit makes this submission. */
  lemma ReadyMakes(h: History, c: Call)
    requires c.SubmitPlan? && Ready(h, c)
    ensures ClustersRead(h, c.clusterIds, c.clustersAt) && |c.ids| == |c.clusterIds|
    ensures var (plan, rows) := (h[c.at].plans[c.planId], ClusterRows(h, c.clusterIds, c.clustersAt));
            && Selectable(plan, c.clusterIds, rows, c.order)
            && (forall id :: id in c.clusterIds ==> id in Shares(plan, c.clusterIds, rows, c.order))
            && Requested(h, c) == Some(Submission(c.planId, plan.(status := PlanStatus.Submitted, version := plan.version + 1), plan.version, c.ids,
                 ReservationRows(c.planId, plan, c.clusterIds, Shares(plan, c.clusterIds, rows, c.order)),
                 plan.siteId, plan.requestedKW, h[c.siteAt].sites[plan.siteId].version))
  {
    RequestedIffReady(h, c);
    RequestMeans(h, c);
    hide Requested, Prepare, Ready, Shares, Selectable;
    var plan := h[c.at].plans[c.planId];
    PrepareMeans(c.actor, c.planId, c.expected, plan, h[c.siteAt].sites[plan.siteId], c.clusterIds,
                 ClusterRows(h, c.clusterIds, c.clustersAt), c.order, c.ids);
  }

  /** A submission that is not ready is refused before its transaction. */
  lemma NotReady(h: History, c: Call)
    requires c.SubmitPlan? && !Ready(h, c)
    ensures Try(h, c).None? && Exec(h, c) == Last(h)
  {
    RequestedIffReady(h, c);
    TryIs(h, c);
    hide Requested, Ready, Try, Exec;
  }

  lemma SubmitTries(h: History, c: Call)
    requires c.SubmitPlan? && Requested(h, c).Some?
    ensures TrySubmit(h, c) == SubmitTx(Last(h), Requested(h, c).value, c.audited)
  {
    hide Requested, SubmitTx;
  }

  lemma ChosenMeans(h: History, plan: Plan, clusterIds: seq<Id>, clustersAt: seq<nat>, rows: seq<Cluster>)
    requires Chosen(h, plan, clusterIds, clustersAt) && ClustersRead(h, clusterIds, clustersAt)
    requires rows == ClusterRows(h, clusterIds, clustersAt)
    ensures |rows| == |clusterIds| && Distinct(clusterIds) && forall i :: 0 <= i < |rows| ==> ClusterChosen(plan, rows[i])
    ensures Zip(clusterIds, RatingsOf(rows)).Keys == (set id | id in clusterIds)
  {
    hide ClusterChosen, Zip;
  }

  lemma NotAccepted(planId: Id, plan: Plan, clusterIds: seq<Id>, rows: seq<Cluster>, order: seq<Id>)
    requires |clusterIds| == |rows| && !(clusterIds != [] && Selectable(plan, clusterIds, rows, order))
    ensures !Accepted(planId, plan, clusterIds, rows, order)
  {
    hide Selectable, Shares;
  }

  lemma RatingsAreValid(clusterIds: seq<Id>, rows: seq<Cluster>, ratings: map<Id, int>)
    requires |clusterIds| == |rows| && ratings == Zip(clusterIds, RatingsOf(rows))
    requires forall id :: id in ratings ==> ValidRating(id, ratings[id])
    ensures forall id :: id in clusterIds ==> id in ratings && !Blank(id)
  {
    hide Zip, Blank;
    assert ratings.Keys == set id | id in clusterIds;
    forall id | id in clusterIds ensures id in ratings.Keys { }
  }

  /** After the allocation only the rows and the plan itself can still be refused. */
  lemma AcceptedIff(planId: Id, plan: Plan, clusterIds: seq<Id>, rows: seq<Cluster>, order: seq<Id>, shares: map<Id, int>)
    requires |clusterIds| == |rows| && clusterIds != [] && Selectable(plan, clusterIds, rows, order)
    requires var ratings := Zip(clusterIds, RatingsOf(rows));
             (forall id :: id in order ==> id in ratings) && shares == Allocate(order, ratings, plan.requestedKW, Sum(ratings))
    requires forall id :: id in clusterIds ==> id in shares
    ensures shares == Shares(plan, clusterIds, rows, order)
    ensures Accepted(planId, plan, clusterIds, rows, order) <==>
              && plan.status.Draft? && plan.window.start < plan.window.end && !Blank(planId)
              && forall id :: id in clusterIds ==> shares[id] > 0
  {
    hide Zip, Blank, Allocate, Selectable;
  }

  /** What Submit returns is the row it stored. */
  lemma SubmittedIsStored(h: History, c: Call)
    requires HistoryInv(h) && c.SubmitPlan? && TrySubmit(h, c).Some?
    ensures Requested(h, c).Some? && c.planId in TrySubmit(h, c).value.plans
    ensures TrySubmit(h, c).value.plans[c.planId] == Requested(h, c).value.plan
  {
    SubmissionMeetsReads(h, c);
    ReadyOf(h, c);
    var (plan, s) := (h[c.at].plans[c.planId], Requested(h, c).value);
    SubmitTries(h, c);
    hide HistoryInv, Requested, TrySubmit, SubmitTx, Ready, Shares, Selectable, ClusterRows, ReservationRows;
    ReadyMakes(h, c);
    SubmitWrites(Last(h), s, c.audited, |c.clusterIds|);
  }

  lemma ReadyOf(h: History, c: Call)
    requires c.SubmitPlan? && Requested(h, c).Some?
    ensures Ready(h, c)
  {
    RequestedIffReady(h, c);
    hide Ready, Requested;
  }

  // ----- The guard of the store and the domain's rule -----

  /** The WHERE clause that takes site power lets through exactly what Site.Reserve allows on the current row. */
  lemma SiteGuardIsReserve(sites: map<Id, Site>, s: Submission)
    requires SitesOk(sites) && s.siteId in sites && s.sitePower > 0
    ensures SiteTakes(sites, s) <==> sites[s.siteId].version == s.expectedSite && sites[s.siteId].Reserve(s.sitePower).Ok?
    ensures SiteTakes(sites, s) ==> sites[s.siteId].Reserve(s.sitePower) == Ok(TakePower(sites[s.siteId], s.sitePower))
  {
  }

  /** When every rating earns at least one kilowatt, every share is positive, so no reservation is refused for its power. */
  lemma FairSharesAreReservable(plan: Plan, clusterIds: seq<Id>, rows: seq<Cluster>, order: seq<Id>)
    requires |clusterIds| == |rows| && Selectable(plan, clusterIds, rows, order)
    requires forall i :: 0 <= i < |rows| ==> Sum(Zip(clusterIds, RatingsOf(rows))) <= plan.requestedKW * rows[i].ratedPowerKW
    ensures forall id :: id in clusterIds ==> id in Shares(plan, clusterIds, rows, order) && Shares(plan, clusterIds, rows, order)[id] > 0
  {
    var ratings := Zip(clusterIds, RatingsOf(rows));
    forall id | id in ratings ensures ratings[id] > 0 && Sum(ratings) <= plan.requestedKW * ratings[id] {
      RatingsAt(clusterIds, rows, id);
      var i :| 0 <= i < |rows| && clusterIds[i] == id && ratings[id] == rows[i].ratedPowerKW;
      assert ClusterAccepted(plan, clusterIds[i], rows[i]);
    }
    hide Zip, Allocate, ClusterAccepted;
    forall id | id in clusterIds ensures id in Shares(plan, clusterIds, rows, order) && Shares(plan, clusterIds, rows, order)[id] > 0 {
      assert id in ratings.Keys;
      assert id in order;
      var k :| 0 <= k < |order| && order[k] == id;
      SharesReachTheirFloor(order, k, ratings, plan.requestedKW);
    }
  }
}
