/**
 * What each committed call wrote, column by column, to the rows as they are when it
 * commits, whatever stale rows it was computed from; and what those rows must have been.
 * Everything is said in terms of columns and arguments, not of the domain's functions.
 */
module Effects {
  import opened Prelude
  import opened TimeEncoding
  import opened Allocation
  import opened Clock
  import opened Sites
  import opened Plans
  import opened Jobs
  import opened Telemetry
  import opened Tables
  import opened Machine
  import opened Invariants
  import opened Preservation
  import opened Submissions
  import opened Dispatches
  import opened Reachable
  import Progress

  lemma Committed(h: History, c: Call)
    ensures Try(h, c).Some? ==> Exec(h, c) == Try(h, c).value
    ensures Try(h, c).None? ==> Exec(h, c) == Last(h)
  {
    hide Try;
  }

  // ----- Sites -----

  lemma CreateSiteIff(h: History, c: Call)
    requires c.CreateSite?
    ensures Try(h, c).Some? <==> c.siteId !in Last(h).sites && 10 <= c.gridLimitKW <= 10_000_000
    ensures Try(h, c).Some? ==> Exec(h, c) == Last(h).(sites := Last(h).sites[c.siteId := Site(c.gridLimitKW, 0, Commissioning, 1)])
  {
  }

  /** A site moves on from commissioning to service, in and out of suspension, and from anywhere but retirement into it. */
  predicate MayBecome(from: SiteStatus, to: SiteStatus) {
    from != to && !from.Retired? && !to.Commissioning? && !(from.Commissioning? && to.Suspended?)
  }

  /** A transition that commits meets the row it was computed from, and changes its status and version only. */
  lemma TransitionWrites(h: History, c: Call)
    requires IsHistory(h) && c.TransitionSite? && Try(h, c).Some?
    ensures c.siteId in Last(h).sites
    ensures var site := Last(h).sites[c.siteId];
            && site.version == c.expected && MayBecome(site.status, c.next) && (c.next.Retired? ==> site.reservedKW == 0)
            && Exec(h, c) == Last(h).(sites := Last(h).sites[c.siteId := site.(status := c.next, version := c.expected + 1)])
  {
    hide IsHistory, HistoryInv;
    HistoryIsSound(h);
    SiteRead(h, c.at, c.siteId);
  }

  lemma TransitionCommitsIff(h: History, c: Call)
    requires IsHistory(h) && c.TransitionSite? && c.at == |h| - 1
    ensures Try(h, c).Some? <==>
              && c.siteId in Last(h).sites
              && var site := Last(h).sites[c.siteId];
                 site.version == c.expected && MayBecome(site.status, c.next) && (c.next.Retired? ==> site.reservedKW == 0)
  {
    hide IsHistory, Inv;
    StateIsSound(h, |h| - 1);
    if c.siteId in Last(h).sites { StoredSiteIsOk(Last(h), c.siteId); }
  }

  lemma StoredSiteIsOk(db: Db, id: Id)
    requires Inv(db) && id in db.sites
    ensures 0 <= db.sites[id].reservedKW <= db.sites[id].gridLimitKW && 0 < db.sites[id].gridLimitKW
  {
    assert SitesOk(db.sites);
    hide Inv;
  }

  /** Retirement is final: the row of a retired site never changes again. */
  lemma RetiredSitesStay(h: History, i: nat, k: nat, id: Id)
    requires IsHistory(h) && i <= k < |h| && id in h[i].sites && h[i].sites[id].status.Retired?
    ensures id in h[k].sites && h[k].sites[id] == h[i].sites[id]
    decreases k
  {
    hide *;
    if i < k {
      RetiredSitesStay(h, i, k - 1, id);
      StepAt(h, k - 1);
      RetiredStep(h[k - 1], h[k], id);
    }
  }

  lemma RetiredStep(a: Db, b: Db, id: Id)
    requires GoodStep(a, b) && id in a.sites && a.sites[id].status.Retired?
    ensures id in b.sites && b.sites[id] == a.sites[id]
  {
    hide Inv, ClustersStep, PlansStep, JobsStep, AlarmsStep, SnapshotsStep, Grows;
  }

  // ----- Clusters -----

  predicate Buildable(input: NewCluster) {
    && !Blank(input.siteId) && 1 <= input.ratedPowerKW <= 2_000_000 && 1 <= input.capacityKWh <= 20_000_000
    && 0 <= input.minSoc < input.maxSoc <= 100 && input.minSoc <= input.initialSoc <= input.maxSoc
  }

  /** A cluster is created exactly if it may be built, under a new identifier, on a site that was not retired when it was read. */
  lemma CreateClusterIff(h: History, c: Call)
    requires IsHistory(h) && c.CreateCluster? && c.at < |h|
    ensures var (n, id) := (c.cluster, c.clusterId);
            && (Try(h, c).Some? <==>
                  n.siteId in h[c.at].sites && !h[c.at].sites[n.siteId].status.Retired? && Buildable(n) && id !in Last(h).clusters)
            && (Try(h, c).Some? ==>
                  Exec(h, c) == Last(h).(clusters := Last(h).clusters[id :=
                    Cluster(n.siteId, n.ratedPowerKW, n.capacityKWh, n.minSoc, n.maxSoc, n.initialSoc, Available, 0, None, 1)]))
  {
    hide IsHistory, HistoryInv, Blank;
    HistoryIsSound(h);
    if c.cluster.siteId in h[c.at].sites {
      SiteRead(h, c.at, c.cluster.siteId);
    }
  }

  /** Degradation is always possible; recovery needs a cluster out of service with its charge back in the window. */
  lemma MaintenanceWrites(h: History, c: Call)
    requires IsHistory(h) && (c.DegradeCluster? || c.RecoverCluster?) && Try(h, c).Some?
    ensures c.clusterId in Last(h).clusters
    ensures var row := Last(h).clusters[c.clusterId];
            && (c.RecoverCluster? ==> (row.status.Degraded? || row.status.Offline?) && row.minSoc <= row.currentSoc <= row.maxSoc)
            && Exec(h, c) == Last(h).(clusters := Last(h).clusters[c.clusterId :=
                 row.(status := if c.DegradeCluster? then Degraded else Available, version := row.version + 1)])
  {
    hide IsHistory, HistoryInv, SameCluster;
    HistoryIsSound(h);
    ClusterRead(h, c.at, c.clusterId);
  }

  // ----- Plans -----

  /** The target fits into the requested power over the whole minutes of the window. */
  predicate Plausible(n: NewPlan, now: Instant) {
    && !Blank(n.siteId) && !Blank(n.createdBy) && 1 <= n.requestedKW <= 10_000_000 && 1 <= n.targetKWh <= 100_000_000
    && MINUTE <= n.endsAt - n.startsAt <= 7 * DAY && now <= n.startsAt + MINUTE
    && 60 * n.targetKWh <= n.requestedKW * ((n.endsAt - n.startsAt) / MINUTE)
  }

  lemma PlausibleIff(n: NewPlan, now: Instant)
    ensures Plans.CreatePlan(n, now).Ok? <==> Plausible(n, now)
    ensures Plans.CreatePlan(n, now).Ok? ==>
              Plans.CreatePlan(n, now).value == Plan(n.siteId, n.direction, n.requestedKW, n.targetKWh, Window(n.startsAt, n.endsAt),
                                                     Draft, n.createdBy, None, None, 1)
  {
    var energy := n.requestedKW * ((n.endsAt - n.startsAt) / MINUTE);
    assert n.targetKWh <= energy / 60 <==> 60 * n.targetKWh <= energy;
    hide Blank;
  }

  /** A draft is created exactly if it is plausible and new, for a site that exists, if its bounds order as text. */
  lemma CreatePlanIff(h: History, c: Call)
    requires IsHistory(h) && c.CreatePlan? && c.at < |h|
    ensures var (n, id) := (c.plan, c.planId);
            && (Try(h, c).Some? <==>
                  n.siteId in h[c.at].sites && Plausible(n, c.now) && id !in Last(h).plans && SqlLess(n.startsAt, n.endsAt))
            && (Try(h, c).Some? ==>
                  Exec(h, c) == Last(h).(plans := Last(h).plans[id :=
                    Plan(n.siteId, n.direction, n.requestedKW, n.targetKWh, Window(n.startsAt, n.endsAt), Draft, n.createdBy, None, None, 1)]))
  {
    hide IsHistory, HistoryInv, Blank, Plans.CreatePlan, SqlLess;
    HistoryIsSound(h);
    PlausibleIff(c.plan, c.now);
    if c.plan.siteId in h[c.at].sites {
      SiteRead(h, c.at, c.plan.siteId);
    }
  }

  /** An approval takes a submitted plan at the expected version, by someone else, and records who approved and when. */
  lemma ApprovalWrites(h: History, c: Call)
    requires IsHistory(h) && c.ApprovePlan? && Try(h, c).Some?
    ensures c.planId in Last(h).plans
    ensures var plan := Last(h).plans[c.planId];
            && plan.version == c.expected && plan.status.Submitted? && c.actor != plan.createdBy
            && Exec(h, c) == Last(h).(plans := Last(h).plans[c.planId :=
                 plan.(status := Approved, approvedBy := Some(c.actor), approvedAt := Some(c.now), version := c.expected + 1)])
  {
    hide IsHistory, HistoryInv, TryApprove;
    HistoryIsSound(h);
    ApprovalMeetsReadRow(h, c);
  }

  // ----- Submissions -----

  /** The reservation of the i-th selected cluster: its share, for the plan's whole window. */
  ghost predicate ReservedFor(b: Db, c: Call, plan: Plan, shares: map<Id, int>, i: int)
    requires c.SubmitPlan?
  {
    && 0 <= i < |c.ids| && i < |c.clusterIds| && c.clusterIds[i] in shares && c.ids[i] in b.reservations
    && b.reservations[c.ids[i]] == Reservation(c.planId, c.clusterIds[i], shares[c.clusterIds[i]], plan.window, Held)
  }

  /** The i-th cluster row that was read could serve the plan, and the current one is still available. */
  ghost predicate ServesPlan(h: History, c: Call, plan: Plan, i: int)
    requires c.SubmitPlan?
  {
    && 0 <= i < |c.clusterIds| && i < |c.clustersAt| && c.clustersAt[i] < |h|
    && var id := c.clusterIds[i];
       && id in h[c.clustersAt[i]].clusters && id in Last(h).clusters
       && var (read, row) := (h[c.clustersAt[i]].clusters[id], Last(h).clusters[id]);
          && read.siteId == plan.siteId && read.status.Available? && 0 < read.ratedPowerKW
          && (plan.direction.Charge? ==> read.currentSoc < read.maxSoc)
          && (plan.direction.Discharge? ==> read.minSoc < read.currentSoc)
          && row.status.Available? && SameCluster(read, row)
  }

  /** The divided power: along the order of the call, over the ratings of the selected clusters. */
  ghost function SharesOf(plan: Plan, clusterIds: seq<Id>, order: seq<Id>, clusters: map<Id, Cluster>): map<Id, int>
    requires (forall id :: id in order ==> id in clusterIds) && (forall id :: id in clusterIds ==> id in clusters)
  {
    Allocate(order, RatingsIn(clusterIds, clusters), plan.requestedKW, Sum(RatingsIn(clusterIds, clusters)))
  }

  ghost function RatingsIn(clusterIds: seq<Id>, clusters: map<Id, Cluster>): map<Id, int>
    requires forall id :: id in clusterIds ==> id in clusters
  {
    map id | id in clusterIds :: clusters[id].ratedPowerKW
  }

  /** What a submission leaves of the tables: exactly the selected clusters reserved, exactly its rows added. */
  ghost predicate Holds(a: Db, b: Db, c: Call, plan: Plan, site: Site, shares: map<Id, int>)
    requires c.SubmitPlan?
  {
    && (forall i :: 0 <= i < |c.clusterIds| ==> ReservedFor(b, c, plan, shares, i))
    && Grows(a.reservations, b.reservations) && b.reservations.Keys == a.reservations.Keys + (set id | id in c.ids)
    && b.clusters == (map id | id in a.clusters ::
         if id in c.clusterIds then a.clusters[id].(status := Reserved, version := a.clusters[id].version + 1) else a.clusters[id])
    && b == a.(clusters := b.clusters, reservations := b.reservations,
               plans := a.plans[c.planId := plan.(status := PlanStatus.Submitted, version := c.expected + 1)],
               sites := a.sites[plan.siteId := site.(reservedKW := site.reservedKW + plan.requestedKW, version := site.version + 1)])
  }

  lemma ReadyParts(h: History, c: Call)
    requires c.SubmitPlan? && Ready(h, c)
    ensures c.at < |h| && c.siteAt < |h| && c.planId in h[c.at].plans && c.clusterIds != []
    ensures var plan := h[c.at].plans[c.planId];
            && plan.createdBy == c.actor && plan.version == c.expected && plan.status.Draft?
            && Chosen(h, plan, c.clusterIds, c.clustersAt)
  {
    hide Chosen, Selectable, Shares, ClusterRows;
  }

  /** Ratings never change, so those that were read are the current ones, and so are the shares. */
  lemma SharesAreCurrent(plan: Plan, clusterIds: seq<Id>, rows: seq<Cluster>, order: seq<Id>, clusters: map<Id, Cluster>)
    requires |clusterIds| == |rows| && Distinct(clusterIds) && Selectable(plan, clusterIds, rows, order)
    requires forall i :: 0 <= i < |rows| ==> clusterIds[i] in clusters && SameCluster(rows[i], clusters[clusterIds[i]])
    ensures Enumerates(order, set id | id in clusterIds) && (forall id :: id in order ==> id in clusterIds)
    ensures forall id :: id in clusterIds ==> id in clusters
    ensures Shares(plan, clusterIds, rows, order) == SharesOf(plan, clusterIds, order, clusters)
  {
    var ratings := Zip(clusterIds, RatingsOf(rows));
    assert ratings.Keys == set id | id in clusterIds;
    forall id | id in order ensures id in clusterIds {
      assert id in ratings.Keys;
    }
    forall id | id in clusterIds ensures id in clusters && ratings[id] == clusters[id].ratedPowerKW {
      var i :| 0 <= i < |clusterIds| && clusterIds[i] == id;
      assert ratings[clusterIds[i]] == RatingsOf(rows)[i];
    }
    assert ratings == RatingsIn(clusterIds, clusters);
    hide Allocate, Zip, ClusterAccepted;
  }

  lemma RowsRefer(planId: Id, plan: Plan, clusterIds: seq<Id>, shares: map<Id, int>)
    requires forall id :: id in clusterIds ==> id in shares
    ensures ClustersOf(ReservationRows(planId, plan, clusterIds, shares)) == set id | id in clusterIds
  {
    var rows := ReservationRows(planId, plan, clusterIds, shares);
    forall id | id in clusterIds ensures id in ClustersOf(rows) {
      var i :| 0 <= i < |clusterIds| && clusterIds[i] == id;
      assert rows[i] in rows && rows[i].clusterId == id;
    }
  }

  lemma ChosenServe(h: History, c: Call, plan: Plan)
    requires c.SubmitPlan? && Chosen(h, plan, c.clusterIds, c.clustersAt) && ClustersRead(h, c.clusterIds, c.clustersAt)
    requires var rows := ClusterRows(h, c.clusterIds, c.clustersAt);
             forall i :: 0 <= i < |rows| ==> c.clusterIds[i] in Last(h).clusters && SameCluster(rows[i], Last(h).clusters[c.clusterIds[i]])
    requires forall id :: id in c.clusterIds ==> id in Last(h).clusters && Last(h).clusters[id].status.Available?
    ensures Distinct(c.clusterIds) && forall i :: 0 <= i < |c.clusterIds| ==> ServesPlan(h, c, plan, i)
  {
    hide SameCluster;
  }

  /** The tables after the transaction, row by row. */
  lemma SubmittedHolds(a: Db, c: Call, plan: Plan, shares: map<Id, int>)
    requires c.SubmitPlan? && |c.ids| == |c.clusterIds| && Distinct(c.ids) && forall id :: id in c.clusterIds ==> id in shares
    requires var rows := ReservationRows(c.planId, plan, c.clusterIds, shares); NoClash(Zip(c.ids, rows), a.reservations)
    requires plan.siteId in a.sites && plan.version == c.expected
    ensures var rows := ReservationRows(c.planId, plan, c.clusterIds, shares);
            Holds(a, Submissions.Submitted(a, Zip(c.ids, rows), c.planId, plan.(status := PlanStatus.Submitted, version := plan.version + 1), ClustersOf(rows)),
                  c, plan, a.sites[plan.siteId], shares)
  {
    hide ConflictExists, ClustersOf, NoClash, Zip, Grows, PairTaken;
    RowsRefer(c.planId, plan, c.clusterIds, shares);
    RowsAdded(a.reservations, c.ids, ReservationRows(c.planId, plan, c.clusterIds, shares));
  }

  lemma RowsAdded(reservations: map<Id, Reservation>, ids: seq<Id>, rows: seq<Reservation>)
    requires |ids| == |rows| && Distinct(ids) && NoClash(Zip(ids, rows), reservations)
    ensures var all := reservations + Zip(ids, rows);
            && Grows(reservations, all) && all.Keys == reservations.Keys + (set id | id in ids)
            && forall i :: 0 <= i < |ids| ==> ids[i] in all && all[ids[i]] == rows[i]
  {
    hide ConflictExists;
  }

  lemma ClustersAreAvailable(a: Db, taken: set<Id>, clusterIds: seq<Id>)
    requires taken == (set id | id in clusterIds) && forall id :: id in taken ==> id in a.clusters && a.clusters[id].status.Available?
    ensures forall id :: id in clusterIds ==> id in a.clusters && a.clusters[id].status.Available?
  {
    forall id | id in clusterIds ensures id in taken { }
  }

  lemma NoConflicts(a: Db, s: Submission)
    requires |s.ids| == |s.rows| && CanSubmit(a, s)
    ensures forall i :: 0 <= i < |s.rows| ==> !ConflictExists(a.reservations, s.rows[i].clusterId, s.rows[i].window)
  {
    hide ConflictExists, AllFit, SiteTakes;
  }

  lemma SubmitsAs(plan: Plan, count: int)
    requires plan.status.Draft? && count > 0
    ensures plan.Submit(count, plan.requestedKW) == Ok(plan.(status := PlanStatus.Submitted, version := plan.version + 1))
  {
  }

  /**
   * A submission that commits took its owner's draft at the expected version, an active
   * site with the power to spare, and clusters that each could serve the plan when read
   * and are still available; it holds the requested power for them, divided among them.
   */
  lemma SubmissionWrites(h: History, c: Call)
    requires IsHistory(h) && c.SubmitPlan? && Try(h, c).Some?
    ensures c.planId in Last(h).plans && Last(h).plans[c.planId].siteId in Last(h).sites
    ensures |c.ids| == |c.clusterIds| && c.clusterIds != [] && Distinct(c.clusterIds)
    ensures Enumerates(c.order, set id | id in c.clusterIds) && forall id :: id in c.order ==> id in c.clusterIds
    ensures forall id :: id in c.clusterIds ==> id in Last(h).clusters
    ensures var (a, plan) := (Last(h), Last(h).plans[c.planId]);
            var (site, shares) := (a.sites[plan.siteId], SharesOf(plan, c.clusterIds, c.order, a.clusters));
            && plan.status.Draft? && plan.createdBy == c.actor && plan.version == c.expected
            && site.status.Active? && site.reservedKW + plan.requestedKW <= site.gridLimitKW
            && (forall i :: 0 <= i < |c.clusterIds| ==> ServesPlan(h, c, plan, i))
            && (forall i :: 0 <= i < |c.clusterIds| ==> !ConflictExists(a.reservations, c.clusterIds[i], plan.window))
            && Sum(shares) == plan.requestedKW && shares.Keys == (set id | id in c.clusterIds)
            && Holds(a, Exec(h, c), c, plan, site, shares)
  {
    hide *;
    HistoryIsSound(h);
    TryIs(h, c);
    Committed(h, c);
    SubmissionMeetsReads(h, c);
    ReadyOf(h, c);
    ReadyMakes(h, c);
    SubmitTries(h, c);
    var (a, plan, s) := (Last(h), Last(h).plans[c.planId], Requested(h, c).value);
    var rows := ClusterRows(h, c.clusterIds, c.clustersAt);
    ReadyParts(h, c);
    ChosenAreRead(h, plan, c.clusterIds, c.clustersAt);
    SubmitMeets(a, s, c.audited);
    RowsDoNotClash(a, s);
    ClustersReadAreCurrent(h, c.clusterIds, c.clustersAt);
    SharesAreExact(plan, c.clusterIds, rows, c.order);
    SharesAreCurrent(plan, c.clusterIds, rows, c.order, a.clusters);
    var shares := Shares(plan, c.clusterIds, rows, c.order);
    RowsRefer(c.planId, plan, c.clusterIds, shares);
    ClustersAreAvailable(a, ClustersOf(s.rows), c.clusterIds);
    ChosenServe(h, c, plan);
    NoConflicts(a, s);
    Progress.SameConflicts(a.reservations, c.planId, plan, c.clusterIds, shares);
    SubmittedHolds(a, c, plan, shares);
    SubmitsAs(plan, |c.clusterIds|);
    SubmitWrites(a, s, c.audited, |c.clusterIds|);
  }

  // ----- Dispatches -----

  /**
   * A dispatch that commits takes an approved plan at the expected version and adds, for
   * each of its reservations, one pending job, to be tried from now on up to five times.
   */
  lemma DispatchWritesJobs(h: History, c: Call)
    requires IsHistory(h) && c.DispatchPlan? && Try(h, c).Some?
    ensures c.planId in Last(h).plans && Lists(Last(h).reservations, c.planId, c.listing) && |c.ids| == |c.listing|
    ensures Distinct(c.ids) && forall i :: 0 <= i < |c.ids| ==> c.ids[i] !in Last(h).jobs && c.listing[i] in Last(h).reservations
    ensures var (a, b, plan) := (Last(h), Exec(h, c), Last(h).plans[c.planId]);
            && plan.status.Approved? && plan.version == c.expected
            && b == a.(jobs := b.jobs, plans := a.plans[c.planId := plan.(status := Dispatched, version := c.expected + 1)])
            && Grows(a.jobs, b.jobs) && b.jobs.Keys == a.jobs.Keys + (set id | id in c.ids)
            && forall i :: 0 <= i < |c.ids| ==>
                 c.ids[i] in b.jobs
                 && b.jobs[c.ids[i]] == Job(c.planId, a.reservations[c.listing[i]].clusterId, Pending, 0, 5, c.now, "", None, "", 1)
  {
    hide *;
    HistoryIsSound(h);
    TryIs(h, c);
    Committed(h, c);
    DispatchWrites(h, c);
    DispatchMeetsReadRow(h, c);
    PlanRead(h, c.at, c.planId);
    VersionTellsStatus(Last(h).plans[c.planId]);
    ListedExist(Last(h).reservations, c.planId, c.listing);
    DispatchesAs(Last(h).plans[c.planId], |c.listing|);
    JobsAdded(Last(h).jobs, c.planId, c.listing, c.ids, Last(h).reservations, c.now);
  }

  lemma DispatchesAs(plan: Plan, count: int)
    requires plan.Dispatch(count, count).Ok?
    ensures plan.Dispatch(count, count) == Ok(plan.(status := Dispatched, version := plan.version + 1))
  {
  }

  lemma JobsAdded(jobs: map<Id, Job>, planId: Id, listing: seq<Id>, ids: seq<Id>, reservations: map<Id, Reservation>, now: Instant)
    requires |ids| == |listing| && Distinct(ids) && forall id :: id in listing ==> id in reservations
    requires var rows := JobRows(planId, listing, reservations, now); Zip(ids, rows).Keys !! jobs.Keys
    ensures var all := jobs + Zip(ids, JobRows(planId, listing, reservations, now));
            && Grows(jobs, all) && all.Keys == jobs.Keys + (set id | id in ids)
            && (forall i :: 0 <= i < |ids| ==>
                  && ids[i] !in jobs && ids[i] in all
                  && all[ids[i]] == Job(planId, reservations[listing[i]].clusterId, Pending, 0, 5, now, "", None, "", 1))
  {
    var rows := JobRows(planId, listing, reservations, now);
    forall i | 0 <= i < |ids| ensures ids[i] !in jobs && ids[i] in Zip(ids, rows) {
      assert ids[i] in Zip(ids, rows).Keys;
    }
    hide Zip;
  }

  // ----- Alarms -----

  /** An acknowledgement that commits takes an open alarm at the expected version and records who it was. */
  lemma AcknowledgementWrites(h: History, c: Call)
    requires IsHistory(h) && c.AcknowledgeAlarm? && Try(h, c).Some?
    ensures c.alarmId in Last(h).alarms
    ensures var alarm := Last(h).alarms[c.alarmId];
            && alarm.status.Open? && alarm.version == c.expected && !Blank(c.actor)
            && Exec(h, c) == Last(h).(alarms := Last(h).alarms[c.alarmId :=
                 alarm.(status := Acknowledged, acknowledgedBy := c.actor, version := c.expected + 1)])
  {
    hide IsHistory, HistoryInv, Blank;
    HistoryIsSound(h);
    AlarmRead(h, c.at, c.alarmId);
  }

  /** A resolution that commits takes an acknowledged alarm whose cluster was read with telemetry and a charge strictly between the bounds. */
  lemma ResolutionWrites(h: History, c: Call)
    requires IsHistory(h) && c.ResolveAlarm? && Try(h, c).Some?
    ensures c.alarmId in Last(h).alarms && c.clusterAt < |h| && Last(h).alarms[c.alarmId].clusterId in h[c.clusterAt].clusters
    ensures var alarm := Last(h).alarms[c.alarmId];
            var cluster := h[c.clusterAt].clusters[alarm.clusterId];
            && alarm.status.Acknowledged? && alarm.version == c.expected && !Blank(c.actor)
            && cluster.latestTelemetryAt.Some? && c.thresholds.lowSoc < cluster.currentSoc < c.thresholds.highSoc
            && Exec(h, c) == Last(h).(alarms := Last(h).alarms[c.alarmId :=
                 alarm.(status := Resolved, resolvedBy := c.actor, version := c.expected + 1)])
  {
    hide IsHistory, HistoryInv, Blank;
    HistoryIsSound(h);
    AlarmRead(h, c.at, c.alarmId);
  }

  /** Undisturbed, an alarm is acknowledged or resolved whenever these conditions hold and the audit event can be stored. */
  lemma AlarmCallsCommitIff(h: History, c: Call)
    requires (c.AcknowledgeAlarm? || c.ResolveAlarm?) && c.at == |h| - 1 && (c.ResolveAlarm? ==> c.clusterAt == |h| - 1)
    ensures c.AcknowledgeAlarm? ==>
              (Try(h, c).Some? <==>
                 && c.alarmId in Last(h).alarms && c.audited && !Blank(c.actor)
                 && Last(h).alarms[c.alarmId].status.Open? && Last(h).alarms[c.alarmId].version == c.expected)
    ensures c.ResolveAlarm? ==>
              (Try(h, c).Some? <==>
                 && c.alarmId in Last(h).alarms && c.audited && !Blank(c.actor)
                 && Last(h).alarms[c.alarmId].status.Acknowledged? && Last(h).alarms[c.alarmId].version == c.expected
                 && Last(h).alarms[c.alarmId].clusterId in Last(h).clusters
                 && var cluster := Last(h).clusters[Last(h).alarms[c.alarmId].clusterId];
                    cluster.latestTelemetryAt.Some? && c.thresholds.lowSoc < cluster.currentSoc < c.thresholds.highSoc)
  {
    hide Blank;
  }
}
