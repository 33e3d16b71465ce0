/** What the capacity of sites, plans and clusters looks like in every reachable state. */
module Capacity {
  import opened Prelude
  import opened TimeEncoding
  import opened Clock
  import opened Sites
  import opened Plans
  import opened Tables
  import opened Machine
  import opened Invariants
  import opened Preservation
  import opened Reachable

  /**
   * Conservation: the reserved power of a site is at once the requested power of its
   * non-draft plans and the power of their unreleased reservations; it stays within the
   * grid limit, and a retired site holds none, whatever races with its retirement.
   */
  lemma SitePowerIsConserved(h: History, k: nat, id: Id)
    requires IsHistory(h) && k < |h| && id in h[k].sites
    ensures var (db, site) := (h[k], h[k].sites[id]);
            && site.reservedKW == Sum(PlanLoad(db.plans, id))
            && site.reservedKW == Sum(ReservationLoad(db.reservations, db.plans, id))
            && 0 <= site.reservedKW <= site.gridLimitKW
            && (site.status.Retired? ==> site.reservedKW == 0)
  {
    hide *;
    StateIsSound(h, k);
    Parts(h[k]);
    SiteIsConserved(h[k], id);
  }

  lemma SiteIsConserved(db: Db, id: Id)
    requires SitesOk(db.sites) && SitesConserved(db.sites, db.plans, db.reservations) && id in db.sites
    ensures db.sites[id].reservedKW == Sum(PlanLoad(db.plans, id)) == Sum(ReservationLoad(db.reservations, db.plans, id))
    ensures 0 <= db.sites[id].reservedKW <= db.sites[id].gridLimitKW && (db.sites[id].status.Retired? ==> db.sites[id].reservedKW == 0)
  {
    hide PlanLoad, ReservationLoad;
  }

  /** A retired site stays retired, and no plan past its draft names it. */
  lemma RetiredSitesHoldNoPlans(h: History, k: nat, id: Id, planId: Id)
    requires IsHistory(h) && k < |h| && id in h[k].sites && h[k].sites[id].status.Retired?
    requires planId in h[k].plans && h[k].plans[planId].siteId == id
    ensures h[k].plans[planId].status.Draft?
  {
    hide *;
    SitePowerIsConserved(h, k, id);
    StateIsSound(h, k);
    Parts(h[k]);
    NonDraftsWeigh(h[k].plans, h[k].sites, id, planId);
  }

  lemma NonDraftsWeigh(plans: map<Id, Plan>, sites: map<Id, Site>, siteId: Id, planId: Id)
    requires PlansOk(plans, sites) && planId in plans && plans[planId].siteId == siteId
    ensures plans[planId].status.Draft? || Sum(PlanLoad(plans, siteId)) > 0
  {
    forall p | p in plans ensures plans[p].requestedKW > 0 { assert PlanOk(plans[p]); }
    hide PlansOk;
    SumMonotone(PlanLoad(plans, siteId), planId);
  }

  /**
   * Disjointness: two unreleased reservations of one cluster have windows that do not
   * overlap as the database compares them.
   */
  lemma HeldWindowsAreDisjoint(h: History, k: nat, a: Id, b: Id)
    requires IsHistory(h) && k < |h| && a in h[k].reservations && b in h[k].reservations && a != b
    requires var rows := h[k].reservations;
             rows[a].clusterId == rows[b].clusterId && !rows[a].status.Released? && !rows[b].status.Released?
    ensures var rows := h[k].reservations; !rows[a].window.SqlOverlaps(rows[b].window)
  {
    hide *;
    StateIsSound(h, k);
    Parts(h[k]);
    DisjointRows(h[k].reservations, a, b);
  }

  lemma DisjointRows(rows: map<Id, Reservation>, a: Id, b: Id)
    requires Disjoint(rows) && a in rows && b in rows && a != b && rows[a].clusterId == rows[b].clusterId
    requires !rows[a].status.Released? && !rows[b].status.Released?
    ensures !rows[a].window.SqlOverlaps(rows[b].window)
  {
  }

  /**
   * So in the domain's sense they can conflict only where the stored text of a bound is
   * not comparable: never with windows on whole seconds.
   */
  lemma ConflictsNeedIncomparableBounds(h: History, k: nat, a: Id, b: Id)
    requires IsHistory(h) && k < |h| && a in h[k].reservations && b in h[k].reservations && a != b
    requires var rows := h[k].reservations; rows[a].window.FourDigitYears() && rows[b].window.FourDigitYears()
    ensures var rows := h[k].reservations;
            rows[a].Conflicts(rows[b]) ==> !rows[a].window.ComparableWith(rows[b].window)
  {
    hide Window.SqlOverlaps, Window.ComparableWith;
    var rows := h[k].reservations;
    if rows[a].Conflicts(rows[b]) {
      HeldWindowsAreDisjoint(h, k, a, b);
      OverlapDetectedIff(rows[a].window, rows[b].window);
    }
  }

  predicate WholeSeconds(w: Window) { Nanos(w.start) == 0 && Nanos(w.end) == 0 }

  lemma WholeSecondReservationsNeverConflict(h: History, k: nat, a: Id, b: Id)
    requires IsHistory(h) && k < |h| && a in h[k].reservations && b in h[k].reservations && a != b
    requires var rows := h[k].reservations;
             && rows[a].window.FourDigitYears() && rows[b].window.FourDigitYears()
             && WholeSeconds(rows[a].window) && WholeSeconds(rows[b].window)
    ensures var rows := h[k].reservations; !rows[a].Conflicts(rows[b])
  {
    var (u, v) := (h[k].reservations[a].window, h[k].reservations[b].window);
    ConflictsNeedIncomparableBounds(h, k, a, b);
    WholeSecondsCompare(u.start, v.end);
    WholeSecondsCompare(v.start, u.end);
    hide Comparable, SqlLess;
  }

  /** A reservation of the plan: its whole window, on a cluster of its site, within the cluster's rating. */
  ghost predicate HeldFor(db: Db, r: Id, planId: Id)
    requires r in db.reservations
  {
    var row := db.reservations[r];
    && planId in db.plans && row.window == db.plans[planId].window
    && row.clusterId in db.clusters && db.clusters[row.clusterId].siteId == db.plans[planId].siteId
    && 0 < row.reservedKW <= db.clusters[row.clusterId].ratedPowerKW
  }

  /**
   * Four eyes and deliverability: an approved or dispatched plan was approved by someone
   * other than its creator, its reservations cover its whole window on clusters of its
   * site within their ratings, and their power delivers the target energy in that window.
   */
  lemma ApprovedPlansAreSafe(h: History, k: nat, id: Id)
    requires IsHistory(h) && k < |h| && id in h[k].plans
    requires h[k].plans[id].status.Approved? || h[k].plans[id].status.Dispatched?
    ensures var (db, plan) := (h[k], h[k].plans[id]);
            && plan.approvedBy.Some? && plan.approvedBy.value != plan.createdBy
            && Sum(PlanHold(db.reservations, id)) == plan.requestedKW
            && plan.targetKWh * HOUR <= Sum(PlanHold(db.reservations, id)) * plan.window.Duration()
    ensures forall r :: r in h[k].reservations && h[k].reservations[r].planId == id ==> HeldFor(h[k], r, id)
  {
    hide *;
    StateIsSound(h, k);
    ApprovedPlanIsSafe(h[k], id);
    PlanHoldsItsClusters(h[k], id);
  }

  lemma ApprovedPlanIsSafe(db: Db, id: Id)
    requires Inv(db) && id in db.plans && (db.plans[id].status.Approved? || db.plans[id].status.Dispatched?)
    ensures db.plans[id].approvedBy.Some? && db.plans[id].approvedBy.value != db.plans[id].createdBy
    ensures Sum(PlanHold(db.reservations, id)) == db.plans[id].requestedKW
    ensures db.plans[id].targetKWh * HOUR <= Sum(PlanHold(db.reservations, id)) * db.plans[id].window.Duration()
  {
    Parts(db);
    hide Inv;
    assert PlanOk(db.plans[id]);
    hide PlanHold;
  }

  lemma PlanHoldsItsClusters(db: Db, id: Id)
    requires Inv(db)
    ensures forall r :: r in db.reservations && db.reservations[r].planId == id ==> HeldFor(db, r, id)
  {
    Parts(db);
    hide Inv;
    forall r | r in db.reservations ensures ReservationOk(db.reservations[r], db.plans, db.clusters) { }
  }
}
