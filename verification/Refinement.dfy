/**
 * Compare-and-swap refinement: although every call computes from rows that may be stale,
 * each committed write is a legal domain transition of the row's current value.
 */
module Refinement {
  import opened Prelude
  import opened Sites
  import opened Plans
  import opened Jobs
  import opened Telemetry
  import opened Tables
  import opened Machine
  import opened Invariants
  import opened Preservation
  import opened Submissions
  import opened Dispatches
  import opened Reachable

  lemma StepParts(a: Db, b: Db)
    requires GoodStep(a, b)
    ensures SitesStep(a.sites, b.sites) && ClustersStep(a.clusters, b.clusters) && PlansStep(a.plans, b.plans)
    ensures JobsStep(a.jobs, b.jobs) && AlarmsStep(a.alarms, b.alarms)
    ensures Grows(a.reservations, b.reservations) && SnapshotsStep(a.clusters, a.snapshots, b.snapshots)
  {
    hide SitesStep, ClustersStep, PlansStep, JobsStep, AlarmsStep, Grows, SnapshotsStep, Inv;
  }

  lemma SiteWrite(a: map<Id, Site>, b: map<Id, Site>, id: Id)
    requires SitesStep(a, b) && id in a
    ensures id in b && (b[id] == a[id] || (LegalSiteWrite(a[id], b[id]) && b[id].version == a[id].version + 1))
  {
  }

  lemma ClusterWrite(a: map<Id, Cluster>, b: map<Id, Cluster>, id: Id)
    requires ClustersStep(a, b) && id in a
    ensures id in b && (b[id] == a[id] || (LegalClusterWrite(a[id], b[id]) && b[id].version == a[id].version + 1))
  {
  }

  lemma PlanWrite(a: map<Id, Plan>, b: map<Id, Plan>, id: Id)
    requires PlansStep(a, b) && id in a
    ensures id in b && (b[id] == a[id] || (LegalPlanWrite(a[id], b[id]) && b[id].version == a[id].version + 1))
  {
  }

  lemma JobWrite(a: map<Id, Job>, b: map<Id, Job>, id: Id)
    requires JobsStep(a, b) && id in a
    ensures id in b && (b[id] == a[id] || (LegalJobWrite(a[id], b[id]) && b[id].version == a[id].version + 1))
  {
  }

  lemma AlarmWrite(a: map<Id, Alarm>, b: map<Id, Alarm>, id: Id)
    requires AlarmsStep(a, b) && id in a
    ensures id in b && (b[id] == a[id] || (LegalAlarmWrite(a[id], b[id]) && b[id].version == a[id].version + 1))
  {
  }

  lemma SiteWritesAreLegal(h: History, k: nat, id: Id)
    requires IsHistory(h) && k + 1 < |h| && id in h[k].sites
    ensures var (a, b) := (h[k].sites, h[k + 1].sites);
            id in b && (b[id] == a[id] || (LegalSiteWrite(a[id], b[id]) && b[id].version == a[id].version + 1))
  {
    hide *;
    StepAt(h, k);
    StepParts(h[k], h[k + 1]);
    SiteWrite(h[k].sites, h[k + 1].sites, id);
  }

  lemma ClusterWritesAreLegal(h: History, k: nat, id: Id)
    requires IsHistory(h) && k + 1 < |h| && id in h[k].clusters
    ensures var (a, b) := (h[k].clusters, h[k + 1].clusters);
            id in b && (b[id] == a[id] || (LegalClusterWrite(a[id], b[id]) && b[id].version == a[id].version + 1))
  {
    hide *;
    StepAt(h, k);
    StepParts(h[k], h[k + 1]);
    ClusterWrite(h[k].clusters, h[k + 1].clusters, id);
  }

  lemma PlanWritesAreLegal(h: History, k: nat, id: Id)
    requires IsHistory(h) && k + 1 < |h| && id in h[k].plans
    ensures var (a, b) := (h[k].plans, h[k + 1].plans);
            id in b && (b[id] == a[id] || (LegalPlanWrite(a[id], b[id]) && b[id].version == a[id].version + 1))
  {
    hide *;
    StepAt(h, k);
    StepParts(h[k], h[k + 1]);
    PlanWrite(h[k].plans, h[k + 1].plans, id);
  }

  lemma JobWritesAreLegal(h: History, k: nat, id: Id)
    requires IsHistory(h) && k + 1 < |h| && id in h[k].jobs
    ensures var (a, b) := (h[k].jobs, h[k + 1].jobs);
            id in b && (b[id] == a[id] || (LegalJobWrite(a[id], b[id]) && b[id].version == a[id].version + 1))
  {
    hide *;
    StepAt(h, k);
    StepParts(h[k], h[k + 1]);
    JobWrite(h[k].jobs, h[k + 1].jobs, id);
  }

  lemma AlarmWritesAreLegal(h: History, k: nat, id: Id)
    requires IsHistory(h) && k + 1 < |h| && id in h[k].alarms
    ensures var (a, b) := (h[k].alarms, h[k + 1].alarms);
            id in b && (b[id] == a[id] || (LegalAlarmWrite(a[id], b[id]) && b[id].version == a[id].version + 1))
  {
    hide *;
    StepAt(h, k);
    StepParts(h[k], h[k + 1]);
    AlarmWrite(h[k].alarms, h[k + 1].alarms, id);
  }

  /** Equal versions at any two times of a run mean equal rows; otherwise the later version is greater. */
  lemma VersionsNameRows(h: History, i: nat, k: nat, id: Id)
    requires IsHistory(h) && i <= k < |h|
    ensures var (a, b) := (h[i], h[k]);
            && (id in a.sites ==> id in b.sites && (b.sites[id] == a.sites[id] || a.sites[id].version < b.sites[id].version))
            && (id in a.clusters ==> id in b.clusters && (b.clusters[id] == a.clusters[id] || a.clusters[id].version < b.clusters[id].version))
            && (id in a.plans ==> id in b.plans && (b.plans[id] == a.plans[id] || a.plans[id].version < b.plans[id].version))
            && (id in a.jobs ==> id in b.jobs && (b.jobs[id] == a.jobs[id] || a.jobs[id].version < b.jobs[id].version))
            && (id in a.alarms ==> id in b.alarms && (b.alarms[id] == a.alarms[id] || a.alarms[id].version < b.alarms[id].version))
  {
    FollowsAt(h, i, k);
  }

  lemma JobVersionsNameRows(h: History, i: nat, k: nat, id: Id)
    requires IsHistory(h) && i <= k < |h| && id in h[i].jobs
    ensures id in h[k].jobs
    ensures h[k].jobs[id] == h[i].jobs[id] || h[i].jobs[id].version < h[k].jobs[id].version
  {
    hide *;
    VersionsNameRows(h, i, k, id);
  }

  // ----- Stale reads change nothing -----

  /** A plan or site row that changed since Submit read it makes the whole submission roll back. */
  lemma StaleSubmitChangesNothing(h: History, c: Call)
    requires IsHistory(h) && c.SubmitPlan? && c.at < |h| && c.siteAt < |h| && c.planId in h[c.at].plans
    requires var (h, siteId) := (h, h[c.at].plans[c.planId].siteId);
             || (c.planId in Last(h).plans && h[c.at].plans[c.planId] != Last(h).plans[c.planId])
             || (siteId in h[c.siteAt].sites && siteId in Last(h).sites && h[c.siteAt].sites[siteId] != Last(h).sites[siteId])
    ensures Exec(h, c) == Last(h)
  {
    hide IsHistory, HistoryInv, TrySubmit, Exec, Try;
    HistoryIsSound(h);
    TryIs(h, c);
    if TrySubmit(h, c).Some? {
      SubmissionMeetsReads(h, c);
    }
  }

  /** An approval computed from a plan row that has changed since does nothing. */
  lemma StaleApprovalChangesNothing(h: History, c: Call)
    requires IsHistory(h) && c.ApprovePlan? && c.at < |h| && c.planId in h[c.at].plans
    requires c.planId in Last(h).plans && h[c.at].plans[c.planId] != Last(h).plans[c.planId]
    ensures Exec(h, c) == Last(h)
  {
    hide IsHistory, HistoryInv, Exec, Try, TryApprove;
    HistoryIsSound(h);
    TryIs(h, c);
    if TryApprove(h, c).Some? {
      ApprovalMeetsReadRow(h, c);
    }
  }
}
