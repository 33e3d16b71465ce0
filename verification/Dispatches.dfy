/**
 * Dispatch never compares the caller's `expected` with the plan it read. It is still safe:
 * a plan that moved on after the read has a job for every reservation, so the UNIQUE key
 * on (plan, cluster) refuses the transaction, whatever version was expected.
 */
module Dispatches {
  import opened Prelude
  import opened Sites
  import opened Plans
  import opened Jobs
  import opened Tables
  import opened Machine
  import opened Invariants
  import opened Preservation

  lemma ListedExist(reservations: map<Id, Reservation>, planId: Id, listing: seq<Id>)
    requires Lists(reservations, planId, listing)
    ensures forall id :: id in listing ==> id in reservations
  {
  }

  // ----- The listing is still the plan's reservations -----

  /** A map that grew without its total growing grew only by rows that add nothing. */
  lemma {:induction false} NothingPositiveAdded<K>(a: map<K, int>, b: map<K, int>, k: K)
    requires a.Keys <= b.Keys && (forall x :: x in a ==> a[x] == b[x]) && (forall x :: x in b ==> b[x] >= 0)
    requires Sum(a) == Sum(b) && k in b && k !in a
    ensures b[k] == 0
  {
    var added := b - a.Keys;
    SumUnion(a, added);
    assert a + added == b;
    SumMonotone(added, k);
    assert added[k] == b[k];
  }

  /** Two states of a plan past its draft that are covered by their reservations have the same reservations. */
  lemma SameHoldings(a: map<Id, Reservation>, b: map<Id, Reservation>, planId: Id, id: Id)
    requires Grows(a, b) && id in b && b[id].planId == planId
    requires forall x :: x in b ==> b[x].status.Held? && b[x].reservedKW > 0
    requires Sum(PlanHold(a, planId)) == Sum(PlanHold(b, planId))
    ensures id in a
  {
    assert PlanHold(b, planId)[id] == b[id].reservedKW;
    if id !in a {
      NothingPositiveAdded(PlanHold(a, planId), PlanHold(b, planId), id);
    }
  }

  lemma HoldingsAreComplete(a: Db, b: Db, planId: Id)
    requires Inv(a) && Inv(b) && Grows(a.reservations, b.reservations) && PlansFollow(a.plans, b.plans)
    requires planId in a.plans && !a.plans[planId].status.Draft? && !b.plans[planId].status.Draft?
    ensures forall id :: id in b.reservations && b.reservations[id].planId == planId ==> id in a.reservations
  {
    hide *;
    HoldsItsPower(a, planId);
    SameRequest(a.plans, b.plans, planId);
    HoldsItsPower(b, planId);
    forall id | id in b.reservations && b.reservations[id].planId == planId ensures id in a.reservations {
      SameHoldings(a.reservations, b.reservations, planId, id);
    }
  }

  lemma HoldsItsPower(a: Db, planId: Id)
    requires Inv(a) && planId in a.plans && !a.plans[planId].status.Draft?
    ensures Sum(PlanHold(a.reservations, planId)) == a.plans[planId].requestedKW
    ensures forall id :: id in a.reservations ==> a.reservations[id].status.Held? && a.reservations[id].reservedKW > 0
  {
    hide PlanHold, Sum;
    Parts(a);
    hide Inv, LegalStep;
    forall id | id in a.reservations ensures a.reservations[id].status.Held? && a.reservations[id].reservedKW > 0 {
      assert ReservationOk(a.reservations[id], a.plans, a.clusters);
    }
  }

  lemma SameRequest(a: map<Id, Plan>, b: map<Id, Plan>, planId: Id)
    requires PlansFollow(a, b) && planId in a
    ensures planId in b && b[planId].requestedKW == a[planId].requestedKW
  {
  }

  lemma ListedPlanIsNoDraft(a: Db, planId: Id, listing: seq<Id>)
    requires Inv(a) && Lists(a.reservations, planId, listing) && listing != []
    ensures planId in a.plans && !a.plans[planId].status.Draft?
  {
    assert ReservationsOk(a.reservations, a.plans, a.clusters);
    hide Inv;
    assert ReservationOk(a.reservations[listing[0]], a.plans, a.clusters);
  }

  lemma ListingIsCurrent(h: History, at: nat, planId: Id, listing: seq<Id>)
    requires HistoryInv(h) && at < |h| && Lists(h[at].reservations, planId, listing) && listing != []
    requires planId in Last(h).plans && !Last(h).plans[planId].status.Draft?
    ensures Lists(Last(h).reservations, planId, listing)
    ensures forall id :: id in listing ==> Last(h).reservations[id] == h[at].reservations[id]
  {
    StatesOf(h, at);
    hide HistoryInv, Inv, PlansFollow, Lists, Grows;
    ListedPlanIsNoDraft(h[at], planId, listing);
    HoldingsAreComplete(h[at], Last(h), planId);
    ListingGrows(h[at].reservations, Last(h).reservations, planId, listing);
  }

  lemma StatesOf(h: History, at: nat)
    requires HistoryInv(h) && at < |h|
    ensures Inv(h[at]) && Inv(Last(h)) && PlansFollow(h[at].plans, Last(h).plans) && Grows(h[at].reservations, Last(h).reservations)
  {
    hide Inv, PlansFollow, Grows, SitesFollow, ClustersFollow, JobsFollow, AlarmsFollow;
  }

  lemma ListingGrows(a: map<Id, Reservation>, b: map<Id, Reservation>, planId: Id, listing: seq<Id>)
    requires Lists(a, planId, listing) && Grows(a, b)
    requires forall id :: id in b && b[id].planId == planId ==> id in a
    ensures Lists(b, planId, listing) && forall id :: id in listing ==> id in a && id in b && b[id] == a[id]
  {
  }

  // ----- What Dispatch computes, and what it meets -----

  lemma DispatchMeans(h: History, c: Call)
    requires c.DispatchPlan? && TryDispatch(h, c).Some?
    ensures c.at < |h| && c.listedAt < |h| && c.planId in h[c.at].plans && |c.ids| == |c.listing| > 0
    ensures Lists(h[c.listedAt].reservations, c.planId, c.listing)
    ensures var dispatched := h[c.at].plans[c.planId].Dispatch(|c.listing|, |c.listing|);
            && dispatched.Ok?
            && TryDispatch(h, c) == DispatchTx(Last(h), c.planId, dispatched.value, c.expected, c.ids,
                                               JobRows(c.planId, c.listing, h[c.listedAt].reservations, c.now), c.audited)
  {
    hide DispatchTx, JobsCreatable;
  }

  lemma DispatchMeets(db: Db, planId: Id, plan: Plan, expected: int, ids: seq<Id>, jobs: seq<Job>, audited: bool)
    requires |ids| == |jobs| && DispatchTx(db, planId, plan, expected, ids, jobs, audited).Some?
    ensures AllJobsFit(db, ids, jobs) && planId in db.plans && db.plans[planId].version == expected && Distinct(ids)
    ensures DispatchTx(db, planId, plan, expected, ids, jobs, audited)
            == Some(db.(jobs := db.jobs + Zip(ids, jobs),
                        plans := db.plans[planId := db.plans[planId].(status := plan.status, version := plan.version)]))
  {
    hide JobFits, Zip;
  }

  /** A dispatched plan has a job for each listed reservation, so none can be inserted again. */
  lemma DispatchedPlanRefuses(a: Db, planId: Id, reservations: map<Id, Reservation>, listing: seq<Id>, ids: seq<Id>, now: Instant)
    requires Inv(a) && planId in a.plans && a.plans[planId].status.Dispatched? && listing != [] && |ids| == |listing|
    requires Lists(reservations, planId, listing) && Grows(reservations, a.reservations)
    ensures !AllJobsFit(a, ids, JobRows(planId, listing, reservations, now))
  {
    assert JobsMatch(a.jobs, a.plans, a.reservations);
    hide Inv;
    var clusterId := reservations[listing[0]].clusterId;
    assert a.reservations[listing[0]] == reservations[listing[0]];
    assert clusterId in HeldClusters(a.reservations, planId);
    assert clusterId in JobClusters(a.jobs, planId);
    assert JobPairTaken(a.jobs, planId, clusterId);
    assert !JobFits(a, ids[0], JobRows(planId, listing, reservations, now)[0]);
  }

  /** The transaction meets the very plan row that was read; `expected` can only have been its version. */
  lemma DispatchMeetsReadRow(h: History, c: Call)
    requires HistoryInv(h) && c.DispatchPlan? && TryDispatch(h, c).Some?
    ensures c.at < |h| && c.planId in h[c.at].plans && c.planId in Last(h).plans
    ensures h[c.at].plans[c.planId] == Last(h).plans[c.planId] && Last(h).plans[c.planId].status.Approved? && c.expected == 3
  {
    DispatchMeans(h, c);
    var (before, row) := (h[c.at].plans[c.planId], Last(h).plans[c.planId]);
    var jobs := JobRows(c.planId, c.listing, h[c.listedAt].reservations, c.now);
    hide HistoryInv, Inv, TryDispatch, DispatchTx, Lists, Grows, AllJobsFit, JobRows, PlanOk;
    PlanRead(h, c.at, c.planId);
    VersionTellsStatus(before);
    VersionTellsStatus(row);
    LastIsSound(h);
    ReservationsRead(h, c.listedAt);
    DispatchMeets(Last(h), c.planId, before.Dispatch(|c.listing|, |c.listing|).value, c.expected, c.ids, jobs, c.audited);
    if row.status.Dispatched? {
      DispatchedPlanRefuses(Last(h), c.planId, h[c.listedAt].reservations, c.listing, c.ids, c.now);
      assert false;
    }
  }

  // ----- One job per reservation -----

  ghost predicate NewJobOf(job: Job, planId: Id) {
    job.planId == planId && JobOk(job) && job.status.Pending? && job.version == 1
  }

  ghost function ClustersOfJobs(rows: map<Id, Job>): set<Id> { set id | id in rows :: rows[id].clusterId }

  ghost predicate JobsFor(rows: map<Id, Job>, planId: Id, clusters: set<Id>) {
    && (forall id :: id in rows ==> NewJobOf(rows[id], planId))
    && ClustersOfJobs(rows) == clusters
    && (forall a, b :: a in rows && b in rows && a != b ==> rows[a].clusterId != rows[b].clusterId)
  }

  lemma NewJobsMatch(a: Db, planId: Id, plan: Plan, rows: map<Id, Job>)
    requires JobsMatch(a.jobs, a.plans, a.reservations) && rows.Keys !! a.jobs.Keys
    requires planId in a.plans && !a.plans[planId].status.Dispatched? && plan.status.Dispatched?
    requires JobsFor(rows, planId, HeldClusters(a.reservations, planId))
    ensures JobsMatch(a.jobs + rows, a.plans[planId := plan], a.reservations)
  {
    var jobs := a.jobs + rows;
    hide *;
    NoJobsBefore(a.jobs, a.plans, a.reservations, planId);
    JobsForMeans(rows, planId, HeldClusters(a.reservations, planId));
    forall p | p in a.plans
      ensures JobClusters(jobs, p) == if p == planId then HeldClusters(a.reservations, p) else JobClusters(a.jobs, p)
    {
      AddedJobClusters(a.jobs, rows, planId, p);
    }
    JobsMatchMeans(a);
    PairsStayUnique(a.jobs, rows, planId);
    JobsMatchAgain(a, planId, plan, jobs);
  }

  lemma JobsMatchMeans(a: Db)
    requires JobsMatch(a.jobs, a.plans, a.reservations)
    ensures forall x, y :: x in a.jobs && y in a.jobs && x != y ==>
              a.jobs[x].planId != a.jobs[y].planId || a.jobs[x].clusterId != a.jobs[y].clusterId
  {
  }

  lemma JobsMatchAgain(a: Db, planId: Id, plan: Plan, jobs: map<Id, Job>)
    requires JobsMatch(a.jobs, a.plans, a.reservations) && planId in a.plans && plan.status.Dispatched?
    requires forall id :: id in jobs ==> (id in a.jobs && jobs[id] == a.jobs[id]) || jobs[id].planId == planId
    requires forall x, y :: x in jobs && y in jobs && x != y ==> jobs[x].planId != jobs[y].planId || jobs[x].clusterId != jobs[y].clusterId
    requires forall p :: p in a.plans ==>
               JobClusters(jobs, p) == if p == planId then HeldClusters(a.reservations, p) else JobClusters(a.jobs, p)
    ensures JobsMatch(jobs, a.plans[planId := plan], a.reservations)
  {
    hide JobClusters, HeldClusters;
  }

  lemma JobsForMeans(rows: map<Id, Job>, planId: Id, clusters: set<Id>)
    requires JobsFor(rows, planId, clusters)
    ensures (forall id :: id in rows ==> rows[id].planId == planId) && ClustersOfJobs(rows) == clusters
    ensures forall a, b :: a in rows && b in rows && a != b ==> rows[a].clusterId != rows[b].clusterId
  {
    hide JobOk;
  }

  lemma AddedJobClusters(jobs: map<Id, Job>, rows: map<Id, Job>, planId: Id, p: Id)
    requires rows.Keys !! jobs.Keys && (forall id :: id in jobs ==> jobs[id].planId != planId)
    requires forall id :: id in rows ==> rows[id].planId == planId
    ensures JobClusters(jobs + rows, p) == if p == planId then ClustersOfJobs(rows) else JobClusters(jobs, p)
  {
    var all := jobs + rows;
    assert forall id :: id in rows ==> id in all && all[id] == rows[id];
    assert forall id :: id in jobs ==> id in all && all[id] == jobs[id];
  }

  lemma PairsStayUnique(jobs: map<Id, Job>, rows: map<Id, Job>, planId: Id)
    requires forall a, b :: a in jobs && b in jobs && a != b ==> jobs[a].planId != jobs[b].planId || jobs[a].clusterId != jobs[b].clusterId
    requires forall a, b :: a in rows && b in rows && a != b ==> rows[a].clusterId != rows[b].clusterId
    requires forall id :: id in jobs ==> jobs[id].planId != planId
    requires forall id :: id in rows ==> rows[id].planId == planId
    ensures var all := jobs + rows;
            forall a, b :: a in all && b in all && a != b ==> all[a].planId != all[b].planId || all[a].clusterId != all[b].clusterId
  {
  }

  lemma NoJobsBefore(jobs: map<Id, Job>, plans: map<Id, Plan>, reservations: map<Id, Reservation>, planId: Id)
    requires JobsMatch(jobs, plans, reservations) && planId in plans && !plans[planId].status.Dispatched?
    ensures forall id :: id in jobs ==> jobs[id].planId != planId
  {
    forall id | id in jobs ensures jobs[id].planId != planId {
      assert jobs[id].planId == planId ==> jobs[id].clusterId in JobClusters(jobs, planId);
    }
  }

  lemma NewJobsAreOk(jobs: map<Id, Job>, rows: map<Id, Job>, planId: Id, clusters: set<Id>)
    requires JobsOk(jobs) && rows.Keys !! jobs.Keys && JobsFor(rows, planId, clusters)
    ensures JobsOk(jobs + rows) && JobsStep(jobs, jobs + rows)
  {
    hide JobOk, LegalJobWrite;
  }

  lemma ListedJobs(ids: seq<Id>, planId: Id, listing: seq<Id>, reservations: map<Id, Reservation>, now: Instant)
    requires |ids| == |listing| && Distinct(ids) && Lists(reservations, planId, listing)
    requires forall a, b :: a in reservations && b in reservations && a != b ==>
               reservations[a].planId != reservations[b].planId || reservations[a].clusterId != reservations[b].clusterId
    ensures JobsFor(Zip(ids, JobRows(planId, listing, reservations, now)), planId, HeldClusters(reservations, planId))
  {
    hide Zip, Lists, JobRows, NewJobOf, HeldClusters, ClustersOfJobs;
    ListedExist(reservations, planId, listing);
    var jobs := JobRows(planId, listing, reservations, now);
    JobRowsAreNew(planId, listing, reservations, now);
    ZipSatisfies(ids, jobs, planId);
    ListedJobsDiffer(ids, planId, listing, reservations, now);
    ZippedClusters(ids, jobs);
    ListedClusters(planId, listing, reservations, now);
  }

  lemma JobRowsAreNew(planId: Id, listing: seq<Id>, reservations: map<Id, Reservation>, now: Instant)
    requires forall id :: id in listing ==> id in reservations
    ensures var jobs := JobRows(planId, listing, reservations, now);
            |jobs| == |listing| && forall i :: 0 <= i < |jobs| ==> NewJobOf(jobs[i], planId)
  {
  }

  lemma ZipSatisfies(ids: seq<Id>, jobs: seq<Job>, planId: Id)
    requires |ids| == |jobs| && Distinct(ids) && forall i :: 0 <= i < |ids| ==> NewJobOf(jobs[i], planId)
    ensures forall id :: id in Zip(ids, jobs) ==> NewJobOf(Zip(ids, jobs)[id], planId)
  {
    hide Zip, NewJobOf;
    forall id | id in Zip(ids, jobs) ensures NewJobOf(Zip(ids, jobs)[id], planId) {
      var i :| 0 <= i < |ids| && ids[i] == id;
      assert Zip(ids, jobs)[ids[i]] == jobs[i];
    }
  }

  lemma ListedJobsDiffer(ids: seq<Id>, planId: Id, listing: seq<Id>, reservations: map<Id, Reservation>, now: Instant)
    requires |ids| == |listing| && Distinct(ids) && Lists(reservations, planId, listing)
    requires forall a, b :: a in reservations && b in reservations && a != b ==>
               reservations[a].planId != reservations[b].planId || reservations[a].clusterId != reservations[b].clusterId
    ensures var rows := Zip(ids, JobRows(planId, listing, reservations, now));
            forall a, b :: a in rows && b in rows && a != b ==> rows[a].clusterId != rows[b].clusterId
  {
    hide Zip;
    var jobs := JobRows(planId, listing, reservations, now);
    forall a, b | a in ids && b in ids && a != b ensures Zip(ids, jobs)[a].clusterId != Zip(ids, jobs)[b].clusterId {
      var i :| 0 <= i < |ids| && ids[i] == a;
      var j :| 0 <= j < |ids| && ids[j] == b;
      assert Zip(ids, jobs)[ids[i]] == jobs[i] && Zip(ids, jobs)[ids[j]] == jobs[j] && listing[i] != listing[j];
    }
  }

  ghost function ClustersIn(jobs: seq<Job>): set<Id> { set i | 0 <= i < |jobs| :: jobs[i].clusterId }

  lemma ZippedClusters(ids: seq<Id>, jobs: seq<Job>)
    requires |ids| == |jobs| && Distinct(ids)
    ensures ClustersOfJobs(Zip(ids, jobs)) == ClustersIn(jobs)
  {
    hide Zip;
    forall i | 0 <= i < |jobs| ensures jobs[i].clusterId in ClustersOfJobs(Zip(ids, jobs)) {
      assert ids[i] in Zip(ids, jobs);
    }
    forall id | id in Zip(ids, jobs) ensures Zip(ids, jobs)[id].clusterId in ClustersIn(jobs) {
      var i :| 0 <= i < |ids| && ids[i] == id;
      assert Zip(ids, jobs)[ids[i]] == jobs[i];
    }
  }

  lemma ListedClusters(planId: Id, listing: seq<Id>, reservations: map<Id, Reservation>, now: Instant)
    requires Lists(reservations, planId, listing)
    ensures ClustersIn(JobRows(planId, listing, reservations, now)) == HeldClusters(reservations, planId)
  {
    var jobs := JobRows(planId, listing, reservations, now);
    forall clusterId | clusterId in HeldClusters(reservations, planId) ensures clusterId in ClustersIn(jobs) {
      var r :| r in reservations && reservations[r].planId == planId && reservations[r].clusterId == clusterId;
      var i :| 0 <= i < |listing| && listing[i] == r;
      assert jobs[i].clusterId == clusterId;
    }
  }

  lemma NewIds(db: Db, ids: seq<Id>, jobs: seq<Job>)
    requires |ids| == |jobs| && AllJobsFit(db, ids, jobs)
    ensures Zip(ids, jobs).Keys !! db.jobs.Keys
  {
    forall id | id in ids ensures id !in db.jobs {
      var i :| 0 <= i < |ids| && ids[i] == id;
      assert JobFits(db, ids[i], jobs[i]);
    }
  }

  lemma DispatchIsLegal(before: Plan, count: int, after: Plan)
    requires before.Dispatch(count, count) == Ok(after)
    ensures LegalPlanWrite(before, after) && MovesOn(before, after) && after.status.Dispatched? && before.status.Approved?
    ensures after == before.(status := after.status, version := after.version)
  {
  }

  lemma PairsDiffer(a: Db)
    requires ReservationsOk(a.reservations, a.plans, a.clusters)
    ensures forall x, y :: x in a.reservations && y in a.reservations && x != y ==>
              a.reservations[x].planId != a.reservations[y].planId || a.reservations[x].clusterId != a.reservations[y].clusterId
  {
  }

  lemma PlanDispatched(a: Db, planId: Id, plan: Plan, listing: seq<Id>, ids: seq<Id>, now: Instant, rows: map<Id, Job>)
    requires Inv(a) && planId in a.plans && a.plans[planId].Dispatch(|listing|, |listing|) == Ok(plan)
    requires Lists(a.reservations, planId, listing) && |ids| == |listing| && Distinct(ids)
    requires rows == Zip(ids, JobRows(planId, listing, a.reservations, now)) && rows.Keys !! a.jobs.Keys
    ensures GoodStep(a, a.(plans := a.plans[planId := plan], jobs := a.jobs + rows))
  {
    hide *;
    DispatchIsLegal(a.plans[planId], |listing|, plan);
    Parts(a);
    PairsDiffer(a);
    ListedJobs(ids, planId, listing, a.reservations, now);
    NewJobsMatch(a, planId, plan, rows);
    NewJobsAreOk(a.jobs, rows, planId, HeldClusters(a.reservations, planId));
    PlanMovesOn(a, planId, plan, a.jobs + rows);
  }

  /** Rows that did not change give the same jobs. */
  lemma SameJobRows(planId: Id, listing: seq<Id>, a: map<Id, Reservation>, b: map<Id, Reservation>, now: Instant)
    requires forall id :: id in listing ==> id in a && id in b && a[id] == b[id]
    ensures JobRows(planId, listing, a, now) == JobRows(planId, listing, b, now)
  {
  }

  /** What a committed dispatch does to the current database. */
  lemma DispatchWrites(h: History, c: Call)
    requires HistoryInv(h) && c.DispatchPlan? && TryDispatch(h, c).Some?
    ensures c.planId in Last(h).plans && Lists(Last(h).reservations, c.planId, c.listing) && |c.ids| == |c.listing| && Distinct(c.ids)
    ensures Last(h).plans[c.planId].Dispatch(|c.listing|, |c.listing|).Ok?
    ensures var (a, jobs) := (Last(h), JobRows(c.planId, c.listing, Last(h).reservations, c.now));
            && Zip(c.ids, jobs).Keys !! a.jobs.Keys
            && TryDispatch(h, c) == Some(a.(plans := a.plans[c.planId := a.plans[c.planId].Dispatch(|c.listing|, |c.listing|).value],
                                            jobs := a.jobs + Zip(c.ids, jobs)))
  {
    DispatchMeans(h, c);
    DispatchMeetsReadRow(h, c);
    ListingIsCurrent(h, c.listedAt, c.planId, c.listing);
    var a := Last(h);
    var jobs := JobRows(c.planId, c.listing, a.reservations, c.now);
    var dispatched := a.plans[c.planId].Dispatch(|c.listing|, |c.listing|).value;
    assert forall id :: id in c.listing ==> id in h[c.listedAt].reservations && id in a.reservations;
    DispatchIsLegal(a.plans[c.planId], |c.listing|, dispatched);
    hide *;
    SameJobRows(c.planId, c.listing, h[c.listedAt].reservations, a.reservations, c.now);
    DispatchMeets(a, c.planId, dispatched, c.expected, c.ids, jobs, c.audited);
    NewIds(a, c.ids, jobs);
  }

  lemma DispatchPlanKeeps(h: History, c: Call)
    requires HistoryInv(h) && c.DispatchPlan? && TryDispatch(h, c).Some?
    ensures GoodStep(Last(h), TryDispatch(h, c).value)
  {
    DispatchWrites(h, c);
    LastIsSound(h);
    var (a, n) := (Last(h), |c.listing|);
    var dispatched := a.plans[c.planId].Dispatch(n, n).value;
    hide *;
    PlanDispatched(a, c.planId, dispatched, c.listing, c.ids, c.now, Zip(c.ids, JobRows(c.planId, c.listing, a.reservations, c.now)));
  }
}
