/**
 * The services as the source runs them: imperative methods that read one row after
 * another, compute, and commit through the store, while other calls run in between.
 * Each method is proved to be one call of the state machine, with the rows it read.
 */
module Backend {
  import opened Prelude
  import opened TimeEncoding
  import opened Allocation
  import opened Clock
  import opened Sites
  import opened Plans
  import opened Jobs
  import opened Telemetry
  import opened Tables
  import opened Stores
  import opened Machine
  import opened Invariants
  import opened Preservation
  import opened Reachable
  import opened Submissions
  import opened Dispatches
  import opened Leasing
  import Effects

  class Backend {
    const store: Store
    var history: History
    ghost var calls: seq<Call>

    /** The store is in the last state of the run of all calls so far, and every earlier state is on record. */
    ghost predicate Valid()
      reads this, store
    {
      history == Run(calls) && store.db == Last(history)
    }

    constructor ()
      ensures Valid() && calls == [] && fresh(store)
    {
      store := new Store();
      history := [EMPTY];
      calls := [];
    }

    /** The store has just executed one more call. */
    method Executed(ghost c: Call)
      requires history == Run(calls) && store.db == Exec(history, c)
      modifies this
      ensures Valid() && calls == old(calls) + [c]
      ensures history == old(history) + [store.db]
    {
      hide Run, Exec;
      RunAppends(calls, c);
      history := history + [store.db];
      calls := calls + [c];
    }

    /** Other requests and workers: any number of calls, each with any arguments and any reads. */
    method Interfere()
      requires Valid()
      modifies this, store
      ensures Valid() && old(calls) <= calls && old(history) <= history
    {
      hide Run, Exec;
      var others: seq<Call> := *;
      for i := 0 to |others|
        invariant Valid() && old(calls) <= calls && old(history) <= history
      {
        store.db := Exec(history, others[i]);
        Executed(others[i]);
      }
    }

    /** A new site, and then its audit event. */
    method CreateSite(siteId: Id, gridLimitKW: int, audited: bool)
      returns (outcome: Result<Site>, ghost before: seq<Call>, ghost c: Call)
      requires Valid()
      modifies this, store
      ensures Valid() && old(calls) <= before && before + [c] <= calls && c == Call.CreateSite(siteId, gridLimitKW)
      ensures outcome.Ok? <==> ReportsSuccess(Run(before), c, audited)
      ensures Try(Run(before), c).Some? ==> siteId in Exec(Run(before), c).sites && Ok(Exec(Run(before), c).sites[siteId]) == Sites.CreateSite(gridLimitKW)
      ensures outcome.Err? && Exec(Run(before), c) != Last(Run(before)) <==> Try(Run(before), c).Some? && !audited
      ensures outcome.Ok? ==> siteId in Exec(Run(before), c).sites && Exec(Run(before), c).sites[siteId] == outcome.value
    {
      hide Run;
      c := Call.CreateSite(siteId, gridLimitKW);
      Interfere();
      before := calls;
      outcome := Sites.CreateSite(gridLimitKW);
      if outcome.Ok? {
        var refused := store.InsertSite(siteId, outcome.value);
        if refused.Some? {
          outcome := Err(refused.value);
        }
      }
      Executed(c);
      if outcome.Ok? {
        Interfere();
        outcome := AfterAudit(outcome.value, audited);
      }
    }

    /** A new cluster on a site that is not retired, and then its audit event. */
    method CreateCluster(clusterId: Id, input: NewCluster, audited: bool)
      returns (outcome: Result<Cluster>, ghost before: seq<Call>, ghost c: Call)
      requires Valid()
      modifies this, store
      ensures Valid() && old(calls) <= before && before + [c] <= calls
      ensures c.CreateCluster? && c == Call.CreateCluster(clusterId, input, c.at) && |old(calls)| <= c.at <= |before|
      ensures outcome.Ok? <==> ReportsSuccess(Run(before), c, audited)
      ensures Try(Run(before), c).Some? ==> clusterId in Exec(Run(before), c).clusters && Ok(Exec(Run(before), c).clusters[clusterId]) == Sites.CreateCluster(input)
      ensures outcome.Err? && Exec(Run(before), c) != Last(Run(before)) <==> Try(Run(before), c).Some? && !audited
      ensures outcome.Ok? ==> clusterId in Exec(Run(before), c).clusters && Exec(Run(before), c).clusters[clusterId] == outcome.value
    {
      hide Run, Try, Exec, Sites.CreateCluster;
      Interfere();
      c := Call.CreateCluster(clusterId, input, |calls|);
      if input.siteId !in store.db.sites || store.db.sites[input.siteId].status.Retired? {
        before := calls;
        TryIs(history, c);
        outcome := Err(if input.siteId !in store.db.sites then NOT_FOUND else Fault(Conflict, "site_retired"));
        Executed(c);
        return;
      }
      outcome := Sites.CreateCluster(input);
      Interfere();
      before := calls;
      TryIs(history, c);
      if outcome.Ok? {
        var refused := store.InsertCluster(clusterId, outcome.value);
        if refused.Some? {
          outcome := Err(refused.value);
        }
      }
      Executed(c);
      if outcome.Ok? {
        Interfere();
        outcome := AfterAudit(outcome.value, audited);
      }
    }

    /** A new draft on an existing site, and then its audit event. */
    method CreatePlan(planId: Id, input: NewPlan, now: Instant, audited: bool)
      returns (outcome: Result<Plan>, ghost before: seq<Call>, ghost c: Call)
      requires Valid()
      modifies this, store
      ensures Valid() && old(calls) <= before && before + [c] <= calls
      ensures c.CreatePlan? && c == Call.CreatePlan(planId, input, now, c.at) && |old(calls)| <= c.at <= |before|
      ensures outcome.Ok? <==> ReportsSuccess(Run(before), c, audited)
      ensures Try(Run(before), c).Some? ==> planId in Exec(Run(before), c).plans && Ok(Exec(Run(before), c).plans[planId]) == Plans.CreatePlan(input, now)
      ensures outcome.Err? && Exec(Run(before), c) != Last(Run(before)) <==> Try(Run(before), c).Some? && !audited
      ensures outcome.Ok? ==> planId in Exec(Run(before), c).plans && Exec(Run(before), c).plans[planId] == outcome.value
    {
      hide Run, Try, Exec, Plans.CreatePlan, SqlLess;
      Interfere();
      c := Call.CreatePlan(planId, input, now, |calls|);
      if input.siteId !in store.db.sites {
        before := calls;
        TryIs(history, c);
        outcome := Err(NOT_FOUND);
        Executed(c);
        return;
      }
      outcome := Plans.CreatePlan(input, now);
      Interfere();
      before := calls;
      TryIs(history, c);
      if outcome.Ok? {
        var refused := store.InsertPlan(planId, outcome.value);
        if refused.Some? {
          outcome := Err(refused.value);
        }
      }
      Executed(c);
      if outcome.Ok? {
        Interfere();
        outcome := AfterAudit(outcome.value, audited);
      }
    }

    /**
     * A plan is approved by one guarded write of the row that was read. The audit event
     * is inserted afterwards, on its own: if that fails, the caller gets an error although
     * the plan is approved, and only then.
     */
    method Approve(actor: Id, planId: Id, expected: int, now: Instant, audited: bool)
      returns (outcome: Result<Plan>, ghost before: seq<Call>, ghost c: Call)
      requires Valid()
      modifies this, store
      ensures Valid() && old(calls) <= before && before + [c] <= calls
      ensures c.ApprovePlan? && c == ApprovePlan(actor, planId, expected, now, c.at) && |old(calls)| <= c.at <= |before|
      ensures outcome.Ok? <==> ReportsSuccess(Run(before), c, audited)
      ensures Try(Run(before), c).Some? ==> ApprovedBy(Last(Run(before)), Exec(Run(before), c), actor, planId, expected, now)
      ensures outcome.Err? && Exec(Run(before), c) != Last(Run(before)) <==> Try(Run(before), c).Some? && !audited
      ensures outcome.Ok? ==> planId in Exec(Run(before), c).plans && Exec(Run(before), c).plans[planId] == outcome.value
    {
      hide Run, Try, Exec, UpdatePlanTx, TryApprove, HistoryInv, IsHistory;
      Interfere();
      c := ApprovePlan(actor, planId, expected, now, |calls|);
      if planId !in store.db.plans {
        before := calls;
        RefuseApproval(c);
        return Err(NOT_FOUND), before, c;
      }
      var plan := store.db.plans[planId];
      outcome := plan.Approve(actor, expected, now);
      if outcome.Err? {
        before := calls;
        RefuseApproval(c);
        return;
      }
      Interfere();
      before := calls;
      TryIs(history, c);
      ApprovalTries(history, c);
      var refused := store.UpdatePlan(planId, outcome.value, expected);
      Executed(c);
      if refused.Some? {
        return Err(refused.value), before, c;
      }
      RunIsSound(before);
      RunIsHistory(before);
      ApprovalMeetsReadRow(Run(before), c);
      Effects.ApprovalWrites(Run(before), c);
      Interfere();
      outcome := AfterAudit(outcome.value, audited);
    }

    method RefuseApproval(ghost c: Call)
      requires Valid() && c.ApprovePlan? && c.at < |history|
      requires c.planId in history[c.at].plans ==> history[c.at].plans[c.planId].Approve(c.actor, c.expected, c.now).Err?
      modifies this
      ensures Valid() && calls == old(calls) + [c] && Try(Run(old(calls)), c).None?
      ensures Exec(Run(old(calls)), c) == Last(Run(old(calls)))
    {
      hide Run, Try, Exec;
      TryIs(history, c);
      Executed(c);
    }

    /**
     * A site changes status by one guarded write of the row that was read, which a
     * submission may have changed since. The audit event follows on its own.
     */
    method Transition(siteId: Id, next: SiteStatus, expected: int, audited: bool)
      returns (outcome: Result<Site>, ghost before: seq<Call>, ghost c: Call)
      requires Valid()
      modifies this, store
      ensures Valid() && old(calls) <= before && before + [c] <= calls
      ensures c.TransitionSite? && c == TransitionSite(siteId, next, expected, c.at) && |old(calls)| <= c.at <= |before|
      ensures outcome.Ok? <==> ReportsSuccess(Run(before), c, audited)
      ensures Try(Run(before), c).Some? ==> TransitionedTo(Last(Run(before)), Exec(Run(before), c), siteId, next, expected)
      ensures outcome.Err? && Exec(Run(before), c) != Last(Run(before)) <==> Try(Run(before), c).Some? && !audited
      ensures outcome.Ok? ==> siteId in Exec(Run(before), c).sites && Exec(Run(before), c).sites[siteId] == outcome.value
    {
      hide Run, Try, Exec, Site.Transition, UpdateSiteTx, IsHistory;
      Interfere();
      c := TransitionSite(siteId, next, expected, |calls|);
      if siteId !in store.db.sites || store.db.sites[siteId].version != expected {
        before := calls;
        outcome := Err(if siteId !in store.db.sites then NOT_FOUND else VERSION_CONFLICT);
        RefuseTransition(c);
        return;
      }
      outcome := store.db.sites[siteId].Transition(next);
      if outcome.Err? {
        before := calls;
        RefuseTransition(c);
        return;
      }
      Interfere();
      before := calls;
      TransitionTries(history, c);
      var refused := store.UpdateSite(siteId, outcome.value, expected);
      Executed(c);
      if refused.Some? {
        return Err(refused.value), before, c;
      }
      RunIsHistory(before);
      Effects.TransitionWrites(Run(before), c);
      Interfere();
      outcome := AfterAudit(outcome.value, audited);
    }

    method RefuseTransition(ghost c: Call)
      requires Valid() && c.TransitionSite? && TransitionOf(history, c).None?
      modifies this
      ensures Valid() && calls == old(calls) + [c] && Try(Run(old(calls)), c).None?
      ensures Exec(Run(old(calls)), c) == Last(Run(old(calls)))
    {
      hide Run, Try, Exec, TransitionOf;
      TransitionTries(history, c);
      Executed(c);
    }

    method Acknowledge(actor: Id, alarmId: Id, expected: int, audited: bool)
      returns (outcome: Result<Alarm>, ghost before: seq<Call>, ghost c: Call)
      requires Valid()
      modifies this, store
      ensures Valid() && old(calls) <= before && calls == before + [c]
      ensures c.AcknowledgeAlarm? && c == AcknowledgeAlarm(actor, alarmId, expected, c.at, audited) && |old(calls)| <= c.at <= |before|
      ensures outcome.Ok? <==> Try(Run(before), c).Some?
      ensures outcome.Err? ==> outcome.fault.code != ""
    {
      hide Run, Try, UpdateAlarmTx;
      Interfere();
      c := AcknowledgeAlarm(actor, alarmId, expected, |calls|, audited);
      if alarmId !in store.db.alarms {
        before := calls;
        TryIs(history, c);
        Executed(c);
        return Err(NOT_FOUND), before, c;
      }
      var changed := store.db.alarms[alarmId].Acknowledge(actor, expected);
      if changed.Err? {
        before := calls;
        TryIs(history, c);
        Executed(c);
        return changed, before, c;
      }
      Interfere();
      before := calls;
      TryIs(history, c);
      var refused := store.UpdateAlarm(alarmId, changed.value, expected, audited);
      Executed(c);
      outcome := if refused.Some? then Err(refused.value) else changed;
    }

    /** Resolution reads the alarm, then the cluster: two reads, one guarded write. */
    method Resolve(actor: Id, alarmId: Id, expected: int, thresholds: Thresholds, audited: bool)
      returns (outcome: Result<Alarm>, ghost before: seq<Call>, ghost c: Call)
      requires Valid()
      modifies this, store
      ensures Valid() && old(calls) <= before && calls == before + [c]
      ensures c.ResolveAlarm? && c == ResolveAlarm(actor, alarmId, expected, thresholds, c.at, c.clusterAt, audited)
      ensures |old(calls)| <= c.at <= c.clusterAt <= |before|
      ensures outcome.Ok? <==> Try(Run(before), c).Some?
    {
      hide Run, Try, Exec, UpdateAlarmTx, Alarm.Resolve;
      Interfere();
      ghost var at := |calls|;
      c := ResolveAlarm(actor, alarmId, expected, thresholds, at, at, audited);
      if alarmId !in store.db.alarms {
        before := calls;
        RefuseResolution(c);
        return Err(NOT_FOUND), before, c;
      }
      var alarm := store.db.alarms[alarmId];
      Interfere();
      c := c.(clusterAt := |calls|);
      if alarm.clusterId !in store.db.clusters {
        before := calls;
        RefuseResolution(c);
        return Err(NOT_FOUND), before, c;
      }
      var cluster := store.db.clusters[alarm.clusterId];
      outcome := if cluster.latestTelemetryAt.None? then Err(Fault(Conflict, "telemetry_missing"))
                 else alarm.Resolve(actor, expected, Recovered(cluster, thresholds));
      if outcome.Err? {
        before := calls;
        RefuseResolution(c);
        return;
      }
      Interfere();
      before := calls;
      outcome := CommitResolution(c, outcome.value, alarmId, expected, audited);
    }

    method RefuseResolution(ghost c: Call)
      requires Valid() && c.ResolveAlarm? && ResolutionOf(history, c).None?
      modifies this
      ensures Valid() && calls == old(calls) + [c] && Try(Run(old(calls)), c).None?
    {
      hide Run, Try, Exec, ResolutionOf;
      ResolutionTries(history, c);
      Executed(c);
    }

    method CommitResolution(ghost c: Call, alarm: Alarm, alarmId: Id, expected: int, audited: bool) returns (outcome: Result<Alarm>)
      requires Valid() && c.ResolveAlarm? && c.alarmId == alarmId && c.expected == expected && c.audited == audited
      requires ResolutionOf(history, c) == Some(alarm)
      modifies this, store
      ensures Valid() && calls == old(calls) + [c]
      ensures outcome.Ok? <==> Try(Run(old(calls)), c).Some?
      ensures outcome.Ok? ==> outcome.value == alarm
    {
      hide Run, Try, Exec, ResolutionOf, UpdateAlarmTx;
      ResolutionTries(history, c);
      var refused := store.UpdateAlarm(alarmId, alarm, expected, audited);
      Executed(c);
      outcome := if refused.Some? then Err(refused.value) else Ok(alarm);
    }

    /**
     * The loop of Submit over the selected clusters: one row after another, each from its
     * own moment, until one is unsuitable.
     */
    method ReadClusters(plan: Plan, clusterIds: seq<Id>)
      returns (refused: Option<Fault>, rows: seq<Cluster>, ratings: map<Id, int>, ghost clustersAt: seq<nat>)
      requires Valid()
      modifies this, store
      ensures Valid() && old(calls) <= calls && old(history) <= history
      ensures |clustersAt| == |clusterIds| && forall i :: 0 <= i < |clustersAt| ==> |old(calls)| <= clustersAt[i] <= |calls|
      ensures refused.None? <==> Chosen(history, plan, clusterIds, clustersAt)
      ensures refused.Some? ==> exists i :: StopsAt(history, plan, clusterIds, clustersAt, i, refused.value)
      ensures refused.None? ==> ClustersRead(history, clusterIds, clustersAt) && rows == ClusterRows(history, clusterIds, clustersAt)
                                && ratings == Zip(clusterIds, RatingsOf(rows))
    {
      hide Run, Zip, ChoiceFault, Chosen, ClustersRead, ClusterRows, StopsAt;
      NothingChosen(history, plan);
      rows, ratings, clustersAt := [], map[], [];
      ghost var n := |clusterIds|;
      var i := 0;
      while i < |clusterIds|
        invariant 0 <= i <= n && |clustersAt| == |rows| == i
        invariant Valid() && old(calls) <= calls && old(history) <= history
        invariant forall k :: 0 <= k < i ==> |old(calls)| <= clustersAt[k] <= |calls|
        invariant Chosen(history, plan, clusterIds[..i], clustersAt)
        invariant ClustersRead(history, clusterIds[..i], clustersAt) && rows == ClusterRows(history, clusterIds[..i], clustersAt)
        invariant ratings == Zip(clusterIds[..i], RatingsOf(rows))
      {
        var id := clusterIds[i];
        ghost var (h, at) := (history, clustersAt);
        Interfere();
        ChosenGrows(h, history, plan, clusterIds[..i], at);
        refused := ChoiceFault(store.db, plan, clusterIds, i);
        if refused.Some? {
          ghost var now := |calls|;
          clustersAt := clustersAt + seq(n - i, _ => now);
          assert clustersAt[i] == now && clustersAt[..i] == at;
          RowUnsuitable(history, plan, clusterIds, clustersAt, i);
          ChoiceStops(history, plan, clusterIds, clustersAt, i);
          assert StopsAt(history, plan, clusterIds, clustersAt, i, refused.value);
          return;
        }
        ChosenExtends(history, plan, clusterIds, at, |calls|, i, rows);
        ratings := ratings[id := store.db.clusters[id].ratedPowerKW];
        rows := rows + [store.db.clusters[id]];
        clustersAt := clustersAt + [|calls|];
        i := i + 1;
      }
      assert clusterIds[..i] == clusterIds;
      refused := None;
    }

    /**
     * Submit: three kinds of reads at different moments, the allocation, and one
     * transaction guarded by the versions that were read.
     */
    method Submit(actor: Id, planId: Id, expected: int, clusterIds: seq<Id>, ids: seq<Id>, audited: bool)
      returns (outcome: Result<Plan>, ghost before: seq<Call>, ghost c: Call)
      requires Valid() && |ids| == |clusterIds|
      modifies this, store
      ensures Valid() && old(calls) <= before && calls == before + [c]
      ensures c.SubmitPlan? && c == SubmitPlan(actor, planId, expected, clusterIds, c.order, ids, c.at, c.siteAt, c.clustersAt, audited)
      ensures ReadBetween(c, |old(calls)|, |before|)
      ensures outcome.Ok? <==> Try(Run(before), c).Some?
      ensures outcome.Ok? ==> planId in store.db.plans && store.db.plans[planId] == outcome.value
      ensures outcome.Ok? ==> TookClusters(Run(before), c, outcome.value)
    {
      hide Run, Try, Exec, Chosen, Accepted, ClusterRows, TookClusters;
      Interfere();
      ghost var (n, at) := (|clusterIds|, |calls|);
      c := SubmitPlan(actor, planId, expected, clusterIds, clusterIds, ids, at, at, seq(n, _ => at), audited);
      if planId !in store.db.plans {
        before := calls;
        Refuse(c);
        return Err(NOT_FOUND), before, c;
      }
      var plan := store.db.plans[planId];
      if plan.createdBy != actor || plan.version != expected {
        before := calls;
        Refuse(c);
        outcome := Err(if plan.createdBy != actor then Fault(Forbidden, "plan_owner_required") else VERSION_CONFLICT);
        return;
      }
      Interfere();
      ghost var siteAt := |calls|;
      c := c.(siteAt := siteAt, clustersAt := seq(n, _ => siteAt));
      if plan.siteId !in store.db.sites || !store.db.sites[plan.siteId].CanAcceptPlans() {
        before := calls;
        outcome := Err(if plan.siteId !in store.db.sites then NOT_FOUND else Fault(Conflict, "site_not_active"));
        Refuse(c);
        return;
      }
      var site := store.db.sites[plan.siteId];
      outcome, before, c := SubmitSelected(c, plan, site, planId, clusterIds, ids, audited);
    }

    /** The plan and the site have passed; the clusters are still to be read. */
    ghost predicate OwnerPassed(c: Call, plan: Plan, site: Site)
      reads this
      requires c.SubmitPlan?
    {
      && c.at < |history| && c.planId in history[c.at].plans && history[c.at].plans[c.planId] == plan
      && c.siteAt < |history| && plan.siteId in history[c.siteAt].sites && history[c.siteAt].sites[plan.siteId] == site
      && plan.createdBy == c.actor && plan.version == c.expected && site.status.Active?
    }

    method SubmitSelected(ghost passed: Call, plan: Plan, site: Site, planId: Id, clusterIds: seq<Id>, ids: seq<Id>, audited: bool)
      returns (outcome: Result<Plan>, ghost before: seq<Call>, ghost c: Call)
      requires Valid() && |ids| == |clusterIds| && passed.SubmitPlan? && OwnerPassed(passed, plan, site)
      requires passed.planId == planId && passed.clusterIds == clusterIds && passed.ids == ids && passed.audited == audited
      requires passed.order == clusterIds && passed.at <= passed.siteAt <= |calls|
      modifies this, store
      ensures Valid() && old(calls) <= before && calls == before + [c]
      ensures c.SubmitPlan? && c == passed.(clustersAt := c.clustersAt, order := c.order)
      ensures ReadBetween(c, passed.at, |before|)
      ensures outcome.Ok? <==> Try(Run(before), c).Some?
      ensures outcome.Ok? ==> planId in store.db.plans && store.db.plans[planId] == outcome.value
      ensures outcome.Ok? ==> TookClusters(Run(before), c, outcome.value)
    {
      hide Run, Try, Exec, Requested, Chosen, Accepted, ClustersRead, ClusterRows, Zip, Selectable, Shares, Plan.Submit, ClusterChosen, TookClusters;
      var refused, rows, ratings, clustersAt := ReadClusters(plan, clusterIds);
      c := passed.(clustersAt := clustersAt);
      if refused.Some? {
        before := calls;
        Refuse(c);
        return Err(refused.value), before, c;
      }
      ghost var h := history;
      ChosenMeans(h, plan, clusterIds, clustersAt, rows);
      var computed, order := Compute(planId, plan, clusterIds, rows, ratings);
      c := c.(order := order);
      if computed.Err? {
        before := calls;
        Refuse(c);
        return Err(computed.fault), before, c;
      }
      Interfere();
      ChosenGrows(h, history, plan, clusterIds, clustersAt);
      ReadyMakes(history, c);
      outcome, before := CommitSubmission(c, plan, computed.value.0, computed.value.1, site.version, planId, ids, audited);
    }

    /** Submit gives up before its transaction. */
    method Refuse(ghost c: Call)
      requires Valid() && c.SubmitPlan? && !Ready(history, c)
      modifies this
      ensures Valid() && calls == old(calls) + [c] && Try(Run(old(calls)), c).None?
    {
      hide Run, Try, Exec, Ready;
      NotReady(history, c);
      Executed(c);
    }

    method CommitSubmission(ghost c: Call, plan: Plan, submitted: Plan, rows: seq<Reservation>, siteVersion: int, planId: Id, ids: seq<Id>, audited: bool)
      returns (outcome: Result<Plan>, ghost before: seq<Call>)
      requires Valid() && c.SubmitPlan? && Ready(history, c) && c.planId == planId && c.ids == ids && c.audited == audited && |rows| == |ids|
      requires Requested(history, c) == Some(Submission(planId, submitted, plan.version, ids, rows, plan.siteId, plan.requestedKW, siteVersion))
      modifies this, store
      ensures Valid() && before == old(calls) && calls == before + [c]
      ensures outcome.Ok? <==> Try(Run(before), c).Some?
      ensures outcome.Ok? ==> planId in store.db.plans && store.db.plans[planId] == outcome.value
      ensures outcome.Ok? ==> TookClusters(Run(before), c, outcome.value)
    {
      hide Run, Try, Exec, TrySubmit, Requested, Ready, SubmitTx, TookClusters, IsHistory;
      before := calls;
      TryIs(history, c);
      SubmitTries(history, c);
      var s := Submission(planId, submitted, plan.version, ids, rows, plan.siteId, plan.requestedKW, siteVersion);
      var failed := store.SubmitPlanAtomic(s, audited);
      ghost var after := store.db;
      Executed(c);
      outcome := if failed.Some? then Err(failed.value) else Ok(submitted);
      if outcome.Ok? {
        RunIsSound(before);
        hide HistoryInv;
        SubmittedIsStored(Run(before), c);
        RunIsHistory(before);
        SubmissionTook(Run(before), c, after);
      }
    }

    /**
     * Dispatch: the plan, then its reservations, then one job each; `expected` is only
     * ever compared by the store, with the version the row has by then.
     */
    method Dispatch(planId: Id, expected: int, freshIds: map<Id, Id>, now: Instant, audited: bool)
      returns (outcome: Result<Plan>, ghost before: seq<Call>, ghost c: Call)
      requires Valid()
      modifies this, store
      ensures Valid() && old(calls) <= before && calls == before + [c]
      ensures c.DispatchPlan? && c == DispatchPlan(planId, expected, c.listing, c.ids, now, c.at, c.listedAt, audited)
      ensures |old(calls)| <= c.at <= c.listedAt <= |before| && Lists(Run(before)[c.listedAt].reservations, planId, c.listing)
      ensures c.ids == JobIds(c.listing, freshIds)
      ensures outcome.Ok? <==> Try(Run(before), c).Some?
      ensures outcome.Ok? ==> planId in store.db.plans && store.db.plans[planId] == outcome.value
    {
      hide Run, Try, Exec, Lists, JobsCreatable, JobRows, DispatchTx, Plan.Dispatch, JobIds;
      Interfere();
      ghost var at := |calls|;
      if planId !in store.db.plans {
        ghost var none := ListReservations(store.db.reservations, planId);
        c, before := DispatchPlan(planId, expected, none, JobIds(none, freshIds), now, at, at, audited), calls;
        RefuseDispatch(c);
        return Err(NOT_FOUND), before, c;
      }
      var plan := store.db.plans[planId];
      Interfere();
      var listing := ListReservations(store.db.reservations, planId);
      var ids := JobIds(listing, freshIds);
      c := DispatchPlan(planId, expected, listing, ids, now, at, |calls|, audited);
      ListedExist(store.db.reservations, planId, listing);
      var invalid, jobs := MakeJobs(planId, listing, store.db.reservations, now);
      if invalid.Some? {
        before := calls;
        RefuseDispatch(c);
        return Err(invalid.value), before, c;
      }
      var changed := plan.Dispatch(|jobs|, |listing|);
      if changed.Err? {
        before := calls;
        RefuseDispatch(c);
        return changed, before, c;
      }
      Interfere();
      before := calls;
      outcome := CommitDispatch(c, changed.value, jobs, planId, expected, ids, audited);
    }

    method CommitDispatch(ghost c: Call, changed: Plan, jobs: seq<Job>, planId: Id, expected: int, ids: seq<Id>, audited: bool)
      returns (outcome: Result<Plan>)
      requires Valid() && c.DispatchPlan? && c.planId == planId && c.expected == expected && c.ids == ids && c.audited == audited
      requires DispatchReady(history, c) && |jobs| == |ids|
      requires Ok(changed) == history[c.at].plans[planId].Dispatch(|c.listing|, |c.listing|)
      requires jobs == JobRows(planId, c.listing, history[c.listedAt].reservations, c.now)
      modifies this, store
      ensures Valid() && calls == old(calls) + [c]
      ensures outcome.Ok? <==> Try(Run(old(calls)), c).Some?
      ensures outcome.Ok? ==> planId in store.db.plans && store.db.plans[planId] == outcome.value
    {
      hide Run, Try, Exec, Lists, JobsCreatable, JobRows, DispatchTx, Plan.Dispatch, TryDispatch, HistoryInv;
      ghost var before := calls;
      TryIs(history, c);
      DispatchTries(history, c);
      var failed := store.DispatchPlanAtomic(planId, changed, expected, ids, jobs, audited);
      Executed(c);
      outcome := if failed.Some? then Err(failed.value) else Ok(changed);
      if outcome.Ok? {
        RunIsSound(before);
        DispatchStores(Run(before), c);
      }
    }

    method RefuseDispatch(ghost c: Call)
      requires Valid() && c.DispatchPlan? && !DispatchReady(history, c)
      modifies this
      ensures Valid() && calls == old(calls) + [c] && Try(Run(old(calls)), c).None? && history[..|old(history)|] == old(history)
    {
      hide Run, Try, Exec, DispatchReady;
      DispatchRefused(history, c);
      Executed(c);
    }

    /** Record: one cluster row is read; snapshot, row and alarms are written together or not at all. */
    method Record(reading: Reading, snapshotId: Id, freshIds: seq<Id>, thresholds: Thresholds, now: Instant, audited: bool)
      returns (outcome: Result<seq<Condition>>, ghost before: seq<Call>, ghost c: Call)
      requires Valid() && |freshIds| == HowMany(reading, thresholds)
      modifies this, store
      ensures Valid() && old(calls) <= before && calls == before + [c]
      ensures c.RecordTelemetry? && c == RecordTelemetry(reading, snapshotId, freshIds, thresholds, now, c.at, audited)
      ensures |old(calls)| <= c.at <= |before|
      ensures outcome.Ok? <==> Try(Run(before), c).Some?
      ensures outcome.Ok? ==> outcome.value == Conditions(Snapshot(reading, now), thresholds) && Reports(outcome.value, reading, thresholds)
    {
      hide Run, Try, Exec, Conditions, TelemetryTx, AlarmRows, Cluster.ApplyTelemetry, Thresholds.Validate, Reports, HowMany, Thresholded;
      ConditionsAreReported(Snapshot(reading, now), thresholds);
      Interfere();
      c := RecordTelemetry(reading, snapshotId, freshIds, thresholds, now, |calls|, audited);
      if reading.clusterId !in store.db.clusters {
        before := calls;
        RefuseReading(c);
        return Err(NOT_FOUND), before, c;
      }
      var row := store.db.clusters[reading.clusterId];
      var rows;
      outcome, rows := MakeAlarms(reading, row, thresholds, now);
      if outcome.Err? {
        before := calls;
        RefuseReading(c);
        return;
      }
      Interfere();
      before := calls;
      TryIs(history, c);
      ReadingTries(history, c);
      var failed := store.StoreTelemetryAtomic(snapshotId, Snapshot(reading, now), reading.soc, row.version, freshIds, rows, audited);
      Executed(c);
      if failed.Some? {
        outcome := Err(failed.value);
      }
    }

    method RefuseReading(ghost c: Call)
      requires Valid() && c.RecordTelemetry? && !ReadingReady(history, c)
      modifies this
      ensures Valid() && calls == old(calls) + [c] && Try(Run(old(calls)), c).None?
    {
      hide Run, Try, Exec, ReadingReady;
      ReadingRefused(history, c);
      Executed(c);
    }

    /**
     * AcknowledgeBatch: item by item, each its own guarded write; a repeated identifier
     * fails without a second attempt.
     */
    method AcknowledgeBatch(actor: Id, ids: seq<Id>, versions: map<Id, int>, audited: bool)
      returns (results: seq<ItemResult>, succeeded: nat, failed: nat, ghost attempts: map<int, nat>)
      requires Valid()
      modifies this, store
      ensures Valid() && old(calls) <= calls
      ensures succeeded + failed == |ids| && succeeded == |ItemsDone(results)|
      ensures Batch(calls, |old(calls)|, actor, ids, versions, results, attempts)
    {
      hide Run, Try, Exec, Batch, Attempted;
      results, attempts := [], map[];
      NoItems(calls, actor, versions);
      var i := 0;
      while i < |ids|
        invariant 0 <= i <= |ids| && |results| == i
        invariant Valid() && old(calls) <= calls
        invariant Batch(calls, |old(calls)|, actor, ids[..i], versions, results, attempts)
      {
        ghost var (earlier, was, tried) := (calls, results, attempts);
        assert ids[..i + 1] == ids[..i] + [ids[i]];
        if ids[i] in ids[..i] {
          results := results + [ItemResult(ids[i], DUPLICATE_ID)];
          RepeatedItem(calls, |old(calls)|, actor, ids[..i], versions, was, tried, ids[i]);
        } else {
          var outcome, before, c := Acknowledge(actor, ids[i], VersionOf(versions, ids[i]), audited);
          var item := ItemResult(ids[i], if outcome.Err? then outcome.fault.code else "");
          results := results + [item];
          attempts := attempts[i := |before|];
          ItemIsAttempted(before, c, actor, versions, item);
          NextItem(earlier, calls, |old(calls)|, actor, ids[..i], versions, was, tried, |before|, item);
        }
        i := i + 1;
      }
      assert ids[..i] == ids;
      BatchSize(calls, |old(calls)|, actor, ids, versions, results, attempts);
      succeeded, failed := BuildBatchResult(results);
    }

    /**
     * One cycle of a worker: claim, then execute the claimed jobs in any order while
     * others run, and try to write each outcome with the row as it was claimed.
     */
    method ProcessOnce(owner: string, limit: nat, now: Instant, duration: nat)
      returns (claimed: seq<Id>, persisted: set<Id>, ghost before: seq<Call>, ghost c: Call, ghost attempts: map<Id, nat>)
      requires Valid()
      modifies this, store
      ensures Valid() && old(calls) <= before && before + [c] <= calls
      ensures c.ClaimJobs? && c == ClaimJobs(owner, limit, c.candidates, now, duration)
      ensures Selected(Last(Run(before)).jobs, now, limit, c.candidates)
      ensures Distinct(claimed) && |claimed| <= limit
      ensures forall id :: id in claimed <==> id in c.candidates && WasClaimed(Last(Run(before)).jobs, id, owner, now, duration)
      ensures forall id :: id in claimed ==> ClaimedAs(Last(Run(before)), Exec(Run(before), c), id, owner, now + duration)
      ensures attempts.Keys == (set id | id in claimed) && persisted <= attempts.Keys
      ensures forall id :: id in attempts ==> ExecutedBy(calls, attempts[id], owner, id, |before| + 1, id in persisted)
    {
      hide Run, Try, Exec, Selected, WasClaimed, ExecutedBy, LeasedTo;
      Interfere();
      before := calls;
      claimed, c := Claim(owner, limit, now, duration);
      var held := store.db.jobs;
      ghost var at := |calls|;
      persisted, attempts := ExecuteAll(owner, (set id | id in claimed), held, at);
    }

    /** The goroutines of one cycle, in an arbitrary order. */
    method ExecuteAll(owner: string, claimed: set<Id>, held: map<Id, Job>, ghost at: nat) returns (persisted: set<Id>, ghost attempts: map<Id, nat>)
      requires Valid() && at == |calls| && history[at].jobs == held && claimed <= held.Keys
      modifies this, store
      ensures Valid() && old(calls) <= calls && attempts.Keys == claimed && persisted <= claimed
      ensures forall id :: id in attempts ==> ExecutedBy(calls, attempts[id], owner, id, at, id in persisted)
    {
      hide Run, Try, Exec, ExecutedBy;
      var todo := claimed;
      persisted, attempts := {}, map[];
      while todo != {}
        invariant Valid() && old(calls) <= calls && old(history) <= history
        invariant todo <= claimed && persisted <= attempts.Keys && attempts.Keys == claimed - todo
        invariant forall id :: id in attempts ==> ExecutedBy(calls, attempts[id], owner, id, at, id in persisted)
      {
        var id :| id in todo;
        ghost var earlier := calls;
        var done, before := Execute(owner, id, held[id], at);
        ExecutedStay(earlier, calls, attempts, owner, at, persisted);
        ItemIsExecuted(calls, |before|, owner, id, at, done);
        attempts := attempts[id := |before|];
        if done {
          persisted := persisted + {id};
        }
        todo := todo - {id};
      }
    }

    method Claim(owner: string, limit: nat, now: Instant, duration: nat) returns (claimed: seq<Id>, ghost c: Call)
      requires Valid()
      modifies this, store
      ensures Valid() && calls == old(calls) + [c] && c.ClaimJobs? && c == ClaimJobs(owner, limit, c.candidates, now, duration)
      ensures Selected(Last(Run(old(calls))).jobs, now, limit, c.candidates)
      ensures Distinct(claimed) && |claimed| <= limit && forall id :: id in claimed ==> id in store.db.jobs
      ensures forall id :: id in claimed <==> id in c.candidates && WasClaimed(Last(Run(old(calls))).jobs, id, owner, now, duration)
      ensures store.db == Exec(Run(old(calls)), c)
      ensures forall id :: id in claimed ==> ClaimedAs(Last(Run(old(calls))), Exec(Run(old(calls)), c), id, owner, now + duration)
    {
      hide Run, Try, Exec, Selected, ClaimTx, WasClaimed, LeasedTo;
      ghost var db := store.db;
      ghost var candidates;
      claimed, candidates := store.ClaimJobs(owner, limit, now, duration);
      c := ClaimJobs(owner, limit, candidates, now, duration);
      ClaimRuns(history, c);
      ClaimedExist(db, owner, candidates, now, duration);
      Executed(c);
    }

    /** One claimed job: the device runs for some time and with some result; then the outcome is written, if it still may be. */
    method Execute(owner: string, id: Id, held: Job, ghost at: nat) returns (persisted: bool, ghost before: seq<Call>)
      requires Valid() && at < |history| && id in history[at].jobs && history[at].jobs[id] == held
      modifies this, store
      ensures Valid() && old(calls) <= before && old(history) <= history && |calls| == |before| + 1 && calls[..|before|] == before
      ensures IsFinish(calls[|before|], owner, id, at) && (persisted <==> Try(Run(before), calls[|before|]).Some?)
      ensures persisted ==> OutcomeStored(Last(Run(before)), store.db, calls[|before|])
    {
      hide Run, Try, Exec, Finished, CompleteJobTx, OutcomeStored, IsHistory;
      var execution: Execution := *;
      var now: Instant := *;
      Interfere();
      before := calls;
      ghost var c := FinishJob(owner, id, execution, now, at);
      TryIs(history, c);
      var changed := Finished(held, owner, execution, now);
      if changed.Err? {
        Executed(c);
        return false, before;
      }
      var failed := store.CompleteJob(id, changed.value, held.version);
      Executed(c);
      persisted := failed.None?;
      RunIsHistory(before);
      if persisted {
        OutcomesAreStored(Run(before), c);
      }
    }
  }

  /** The submitted plan was its owner's draft, and each selected cluster could serve it when it was read, and is still available. */
  ghost predicate TookClusters(h: History, c: Call, plan: Plan)
    requires c.SubmitPlan?
  {
    && c.planId in Last(h).plans
    && var draft := Last(h).plans[c.planId];
       && draft.status.Draft? && draft.createdBy == c.actor && draft.version == c.expected
       && plan == draft.(status := PlanStatus.Submitted, version := c.expected + 1)
       && c.clusterIds != [] && forall i :: 0 <= i < |c.clusterIds| ==> Effects.ServesPlan(h, c, draft, i)
  }

  lemma SubmissionTook(h: History, c: Call, db: Db)
    requires IsHistory(h) && c.SubmitPlan? && Try(h, c).Some? && db == Exec(h, c) && c.planId in db.plans
    ensures TookClusters(h, c, db.plans[c.planId])
  {
    hide IsHistory, Try, Exec, Effects.ServesPlan, Effects.SharesOf, ConflictExists, Grows, Effects.ReservedFor;
    Effects.SubmissionWrites(h, c);
  }

  /** The plan was a submitted one of somebody else at the expected version; it is now approved, with the approver and the time on record. */
  ghost predicate ApprovedBy(a: Db, b: Db, actor: Id, planId: Id, expected: int, now: Instant) {
    && planId in a.plans && a.plans[planId].status.Submitted? && a.plans[planId].version == expected && actor != a.plans[planId].createdBy
    && b == a.(plans := a.plans[planId :=
         a.plans[planId].(status := Approved, approvedBy := Some(actor), approvedAt := Some(now), version := expected + 1)])
  }

  /** The site was allowed to take the next status, and is retired only if nothing is reserved; nothing else of it changed. */
  ghost predicate TransitionedTo(a: Db, b: Db, siteId: Id, next: SiteStatus, expected: int) {
    && siteId in a.sites && a.sites[siteId].version == expected && Effects.MayBecome(a.sites[siteId].status, next)
    && (next.Retired? ==> a.sites[siteId].reservedKW == 0)
    && b == a.(sites := a.sites[siteId := a.sites[siteId].(status := next, version := expected + 1)])
  }

  /** The job was leased to this owner until that instant. */
  ghost predicate ClaimedAs(a: Db, b: Db, id: Id, owner: string, until: Instant) {
    id in a.jobs && id in b.jobs && LeasedTo(a.jobs[id], b.jobs[id], owner, until)
  }

  /** Record gets as far as its transaction. */
  ghost predicate ReadingReady(h: History, c: Call)
    requires c.RecordTelemetry?
  {
    && c.at < |h| && c.reading.clusterId in h[c.at].clusters
    && Alarmable(c.reading, h[c.at].clusters[c.reading.clusterId], c.thresholds, c.now)
    && |c.alarmIds| == |Conditions(Snapshot(c.reading, c.now), c.thresholds)|
  }

  predicate Alarmable(reading: Reading, row: Cluster, thresholds: Thresholds, now: Instant) {
    && NewSnapshot(reading, now).Ok? && row.ApplyTelemetry(reading.sequence, reading.soc, reading.observedAt, now).Ok?
    && thresholds.Validate().None?
    && (Conditions(Snapshot(reading, now), thresholds) != [] ==> !Blank(row.siteId))
  }

  lemma ReadingRefused(h: History, c: Call)
    requires c.RecordTelemetry? && !ReadingReady(h, c)
    ensures Try(h, c).None? && Exec(h, c) == Last(h)
  {
    TryIs(h, c);
    assert NewSnapshot(c.reading, c.now).Ok? ==> NewSnapshot(c.reading, c.now).value == Snapshot(c.reading, c.now);
    hide Try, Exec, Conditions, TelemetryTx, AlarmRows, NewSnapshot, Cluster.ApplyTelemetry, Thresholds.Validate;
  }

  lemma ReadingTries(h: History, c: Call)
    requires c.RecordTelemetry? && ReadingReady(h, c)
    ensures var (r, row) := (c.reading, h[c.at].clusters[c.reading.clusterId]);
            var rows := AlarmRows(row.siteId, r.clusterId, Conditions(Snapshot(r, c.now), c.thresholds));
            |rows| == |c.alarmIds|
            && TryRecord(h, c) == TelemetryTx(Last(h), c.snapshotId, Snapshot(r, c.now), r.soc, row.version, c.alarmIds, rows, c.audited)
  {
    hide TelemetryTx, Conditions, Thresholds.Validate;
  }

  /** From the cluster row to the alarm rows: everything Record computes. */
  method MakeAlarms(reading: Reading, row: Cluster, thresholds: Thresholds, now: Instant)
    returns (outcome: Result<seq<Condition>>, rows: seq<Alarm>)
    ensures outcome.Ok? <==> Alarmable(reading, row, thresholds, now)
    ensures outcome.Ok? ==> outcome.value == Conditions(Snapshot(reading, now), thresholds)
                            && Reports(outcome.value, reading, thresholds)
                            && rows == AlarmRows(row.siteId, reading.clusterId, outcome.value)
  {
    hide Conditions, Thresholds.Validate, Cluster.ApplyTelemetry, Reports, Thresholded, SocThresholds;
    rows := [];
    var snapshot := NewSnapshot(reading, now);
    if snapshot.Err? {
      return Err(snapshot.fault), rows;
    }
    var updated := row.ApplyTelemetry(reading.sequence, reading.soc, reading.observedAt, now);
    if updated.Err? {
      return Err(updated.fault), rows;
    }
    outcome := Evaluate(snapshot.value, thresholds);
    if outcome.Err? {
      return;
    }
    ConditionsAreNamed(snapshot.value, thresholds);
    var conditions := outcome.value;
    for i := 0 to |conditions|
      invariant rows == AlarmRows(row.siteId, reading.clusterId, conditions[..i])
      invariant i > 0 ==> !Blank(row.siteId)
    {
      var alarm := CreateAlarm(row.siteId, reading.clusterId, conditions[i]);
      if alarm.Err? {
        return Err(alarm.fault), rows;
      }
      rows := rows + [alarm.value];
    }
    assert conditions[..|conditions|] == conditions;
  }

  lemma ConditionsAreNamed(snapshot: Snapshot, thresholds: Thresholds)
    ensures forall i :: 0 <= i < |Conditions(snapshot, thresholds)| ==>
              !Blank(Conditions(snapshot, thresholds)[i].kind) && !Blank(Conditions(snapshot, thresholds)[i].fingerprint)
  {
    var id := snapshot.reading.clusterId;
    assert !IsSpace(SOC_LOW[0]) && !IsSpace(SOC_HIGH[0]) && !IsSpace(TEMPERATURE_HIGH[0]);
    assert !IsSpace(Fingerprint(id, SOC_LOW)[|id|]) && !IsSpace(Fingerprint(id, SOC_HIGH)[|id|]);
    assert !IsSpace(Fingerprint(id, TEMPERATURE_HIGH)[|id|]);
  }

  datatype ItemResult = ItemResult(id: Id, errorCode: string)

  function VersionOf(versions: map<Id, int>, id: Id): int { if id in versions then versions[id] else 0 }

  /** Call k of the run is the acknowledgement of this item, and the item succeeded exactly if it committed. */
  ghost predicate Attempted(calls: seq<Call>, k: nat, actor: Id, id: Id, versions: map<Id, int>, result: ItemResult) {
    && k < |calls| && calls[k].AcknowledgeAlarm? && calls[k].actor == actor && calls[k].alarmId == id
    && calls[k].expected == VersionOf(versions, id)
    && (result.errorCode == "" <==> Try(Run(calls[..k]), calls[k]).Some?)
  }

  predicate FirstAt(ids: seq<Id>, i: int) { 0 <= i < |ids| && forall k :: 0 <= k < i ==> ids[k] != ids[i] }

  lemma FirstAtExtends(ids: seq<Id>, id: Id)
    ensures forall i :: 0 <= i < |ids| ==> (FirstAt(ids + [id], i) <==> FirstAt(ids, i))
    ensures FirstAt(ids + [id], |ids|) <==> id !in ids
  {
    var more := ids + [id];
    assert more[|ids|] == id && forall k :: 0 <= k < |ids| ==> more[k] == ids[k];
  }

  const DUPLICATE_ID := "duplicate_id"

  /**
   * A finished batch: one result per item; the first occurrence of each identifier, and
   * no other, was attempted, by a call of its own; the others failed.
   */
  ghost predicate Batch(calls: seq<Call>, start: nat, actor: Id, ids: seq<Id>, versions: map<Id, int>,
                        results: seq<ItemResult>, attempts: map<int, nat>)
  {
    && |results| == |ids| && (forall i :: 0 <= i < |ids| ==> results[i].id == ids[i])
    && (forall i :: 0 <= i < |ids| ==> (i in attempts <==> FirstAt(ids, i)))
    && (forall i :: i in attempts ==> 0 <= i < |ids| && start <= attempts[i] && Attempted(calls, attempts[i], actor, ids[i], versions, results[i]))
    && (forall i :: 0 <= i < |ids| && i !in attempts ==> results[i].errorCode == DUPLICATE_ID)
  }

  lemma NoItems(calls: seq<Call>, actor: Id, versions: map<Id, int>)
    ensures forall start: nat :: Batch(calls, start, actor, [], versions, [], map[])
  {
  }

  lemma BatchSize(calls: seq<Call>, start: nat, actor: Id, ids: seq<Id>, versions: map<Id, int>, results: seq<ItemResult>, attempts: map<int, nat>)
    requires Batch(calls, start, actor, ids, versions, results, attempts)
    ensures |results| == |ids|
  {
  }

  lemma ItemIsAttempted(before: seq<Call>, c: Call, actor: Id, versions: map<Id, int>, item: ItemResult)
    requires c.AcknowledgeAlarm? && c.actor == actor && c.alarmId == item.id && c.expected == VersionOf(versions, item.id)
    requires item.errorCode == "" <==> Try(Run(before), c).Some?
    ensures Attempted(before + [c], |before|, actor, item.id, versions, item)
  {
    hide Try, Run;
    assert (before + [c])[..|before|] == before;
  }

  lemma RepeatedItem(calls: seq<Call>, start: nat, actor: Id, ids: seq<Id>, versions: map<Id, int>,
                     results: seq<ItemResult>, attempts: map<int, nat>, id: Id)
    requires Batch(calls, start, actor, ids, versions, results, attempts) && id in ids
    ensures Batch(calls, start, actor, ids + [id], versions, results + [ItemResult(id, DUPLICATE_ID)], attempts)
  {
    hide Attempted;
    FirstAtExtends(ids, id);
    hide FirstAt;
  }

  lemma NextItem(a: seq<Call>, b: seq<Call>, start: nat, actor: Id, ids: seq<Id>, versions: map<Id, int>,
                 results: seq<ItemResult>, attempts: map<int, nat>, k: nat, item: ItemResult)
    requires Batch(a, start, actor, ids, versions, results, attempts) && a <= b && item.id !in ids
    requires start <= k && Attempted(b, k, actor, item.id, versions, item)
    ensures Batch(b, start, actor, ids + [item.id], versions, results + [item], attempts[|ids| := k])
  {
    hide Attempted;
    FirstAtExtends(ids, item.id);
    hide FirstAt;
    forall i | i in attempts ensures Attempted(b, attempts[i], actor, ids[i], versions, results[i]) {
      AttemptStays(a, b, attempts[i], actor, ids[i], versions, results[i]);
    }
  }

  lemma AttemptStays(a: seq<Call>, b: seq<Call>, k: nat, actor: Id, id: Id, versions: map<Id, int>, result: ItemResult)
    requires a <= b && Attempted(a, k, actor, id, versions, result)
    ensures Attempted(b, k, actor, id, versions, result)
  {
    hide Try, Run;
    assert a[..k] == b[..k];
  }

  predicate IsFinish(c: Call, owner: string, id: Id, at: nat) {
    c.FinishJob? && c.owner == owner && c.jobId == id && c.at == at
  }

  /** Call k is the worker's one attempt to write the outcome of a job as it held it; it was written exactly if it committed. */
  ghost predicate ExecutedBy(calls: seq<Call>, k: nat, owner: string, id: Id, at: nat, persisted: bool) {
    at <= k < |calls| && IsFinish(calls[k], owner, id, at) && (persisted <==> Try(Run(calls[..k]), calls[k]).Some?)
  }

  lemma ItemIsExecuted(calls: seq<Call>, k: nat, owner: string, id: Id, at: nat, persisted: bool)
    requires at <= k < |calls| && IsFinish(calls[k], owner, id, at) && (persisted <==> Try(Run(calls[..k]), calls[k]).Some?)
    ensures ExecutedBy(calls, k, owner, id, at, persisted)
  {
  }

  lemma ExecutedStay(a: seq<Call>, b: seq<Call>, attempts: map<Id, nat>, owner: string, at: nat, persisted: set<Id>)
    requires a <= b && forall id :: id in attempts ==> ExecutedBy(a, attempts[id], owner, id, at, id in persisted)
    ensures forall id :: id in attempts ==> ExecutedBy(b, attempts[id], owner, id, at, id in persisted)
  {
    forall id | id in attempts ensures ExecutedBy(b, attempts[id], owner, id, at, id in persisted) {
      assert a[..attempts[id]] == b[..attempts[id]];
    }
  }

  lemma ClaimedExist(db: Db, owner: string, candidates: seq<Id>, now: Instant, duration: nat)
    ensures ClaimTx(db, owner, candidates, now, duration).jobs.Keys == db.jobs.Keys
    ensures forall id :: WasClaimed(db.jobs, id, owner, now, duration) ==> id in db.jobs
  {
  }

  function Successes(results: seq<ItemResult>): nat {
    if results == [] then 0
    else Successes(results[..|results| - 1]) + if results[|results| - 1].errorCode == "" then 1 else 0
  }

  ghost function ItemsDone(results: seq<ItemResult>): set<int> { set i | 0 <= i < |results| && results[i].errorCode == "" }

  lemma {:induction false} SuccessesCount(results: seq<ItemResult>)
    ensures Successes(results) == |ItemsDone(results)|
  {
    if results != [] {
      var n := |results| - 1;
      SuccessesCount(results[..n]);
      assert ItemsDone(results) == ItemsDone(results[..n]) + if results[n].errorCode == "" then {n} else {};
    }
  }

  method BuildBatchResult(results: seq<ItemResult>) returns (succeeded: nat, failed: nat)
    ensures succeeded == Successes(results) && succeeded + failed == |results|
    ensures succeeded == |ItemsDone(results)|
  {
    SuccessesCount(results);
    succeeded, failed := 0, 0;
    for i := 0 to |results|
      invariant succeeded == Successes(results[..i]) && succeeded + failed == i
    {
      assert results[..i + 1][..i] == results[..i];
      if results[i].errorCode == "" {
        succeeded := succeeded + 1;
      } else {
        failed := failed + 1;
      }
    }
    assert results[..|results|] == results;
  }

  /** The write is committed; what is returned depends on the separate audit insert. */
  function AfterAudit<T>(written: T, audited: bool): (r: Result<T>)
    ensures r.Ok? <==> audited
    ensures audited ==> r == Ok(written)
  {
    if audited then Ok(written) else Err(WRITE_FAILED)
  }

  lemma ApprovalTries(h: History, c: Call)
    requires c.ApprovePlan? && c.at < |h| && c.planId in h[c.at].plans
    requires h[c.at].plans[c.planId].Approve(c.actor, c.expected, c.now).Ok?
    ensures TryApprove(h, c) == UpdatePlanTx(Last(h), c.planId, h[c.at].plans[c.planId].Approve(c.actor, c.expected, c.now).value, c.expected)
  {
    hide UpdatePlanTx, Plan.Approve;
  }

  /** The changed copy that Transition computes from the row it read. */
  ghost function TransitionOf(h: History, c: Call): Option<Site>
    requires c.TransitionSite?
  {
    if c.at >= |h| || c.siteId !in h[c.at].sites || h[c.at].sites[c.siteId].version != c.expected then None
    else
      var changed := h[c.at].sites[c.siteId].Transition(c.next);
      if changed.Err? then None else Some(changed.value)
  }

  lemma TransitionTries(h: History, c: Call)
    requires c.TransitionSite?
    ensures TransitionOf(h, c).None? ==> Try(h, c).None? && Exec(h, c) == Last(h)
    ensures TransitionOf(h, c).Some? ==>
              && Try(h, c) == UpdateSiteTx(Last(h), c.siteId, TransitionOf(h, c).value, c.expected)
              && Exec(h, c) == Commit(Last(h), Try(h, c))
              && TransitionOf(h, c).value.status == c.next && TransitionOf(h, c).value.version == c.expected + 1
  {
    TryIs(h, c);
    hide Try, Exec, UpdateSiteTx;
  }

  predicate Recovered(cluster: Cluster, thresholds: Thresholds) {
    cluster.currentSoc > thresholds.lowSoc && cluster.currentSoc < thresholds.highSoc
  }

  /** The resolved copy that Resolve computes from the two rows it read. */
  ghost function ResolutionOf(h: History, c: Call): Option<Alarm>
    requires c.ResolveAlarm?
  {
    if c.at >= |h| || c.clusterAt >= |h| || c.alarmId !in h[c.at].alarms || h[c.at].alarms[c.alarmId].clusterId !in h[c.clusterAt].clusters
    then None
    else
      var (alarm, cluster) := (h[c.at].alarms[c.alarmId], h[c.clusterAt].clusters[h[c.at].alarms[c.alarmId].clusterId]);
      var resolved := alarm.Resolve(c.actor, c.expected, Recovered(cluster, c.thresholds));
      if cluster.latestTelemetryAt.None? || resolved.Err? then None else Some(resolved.value)
  }

  lemma ResolutionTries(h: History, c: Call)
    requires c.ResolveAlarm?
    ensures ResolutionOf(h, c).None? ==> Try(h, c).None? && Exec(h, c) == Last(h)
    ensures ResolutionOf(h, c).Some? ==>
              && Try(h, c) == UpdateAlarmTx(Last(h), c.alarmId, ResolutionOf(h, c).value, c.expected, c.audited)
              && Exec(h, c) == Commit(Last(h), Try(h, c))
  {
    TryIs(h, c);
    hide Try, Exec, UpdateAlarmTx, Alarm.Resolve;
  }

  /** The identifiers given to the new jobs, by reservation. */
  function JobIds(listing: seq<Id>, freshIds: map<Id, Id>): (ids: seq<Id>)
    ensures |ids| == |listing|
  {
    seq(|listing|, i requires 0 <= i < |listing| => if listing[i] in freshIds then freshIds[listing[i]] else listing[i])
  }

  /** Dispatch gets as far as its transaction. */
  ghost predicate DispatchReady(h: History, c: Call)
    requires c.DispatchPlan?
  {
    && c.at < |h| && c.listedAt < |h| && c.planId in h[c.at].plans && |c.ids| == |c.listing|
    && Lists(h[c.listedAt].reservations, c.planId, c.listing)
    && JobsCreatable(c.planId, c.listing, h[c.listedAt].reservations, c.now)
    && h[c.at].plans[c.planId].Dispatch(|c.listing|, |c.listing|).Ok?
  }

  lemma DispatchRefused(h: History, c: Call)
    requires c.DispatchPlan? && !DispatchReady(h, c)
    ensures Try(h, c).None? && Exec(h, c) == Last(h)
  {
    TryIs(h, c);
    hide Try, Exec, Lists, JobsCreatable, JobRows, DispatchTx;
  }

  lemma DispatchTries(h: History, c: Call)
    requires c.DispatchPlan? && DispatchReady(h, c)
    ensures TryDispatch(h, c) == DispatchTx(Last(h), c.planId, h[c.at].plans[c.planId].Dispatch(|c.listing|, |c.listing|).value,
                                            c.expected, c.ids, JobRows(c.planId, c.listing, h[c.listedAt].reservations, c.now), c.audited)
  {
    hide Lists, JobsCreatable, JobRows, DispatchTx;
  }

  lemma DispatchStores(h: History, c: Call)
    requires HistoryInv(h) && c.DispatchPlan? && TryDispatch(h, c).Some?
    ensures c.at < |h| && c.planId in h[c.at].plans && c.planId in TryDispatch(h, c).value.plans
    ensures h[c.at].plans[c.planId].Dispatch(|c.listing|, |c.listing|) == Ok(TryDispatch(h, c).value.plans[c.planId])
  {
    DispatchMeetsReadRow(h, c);
    DispatchWrites(h, c);
    hide HistoryInv, TryDispatch, Lists, JobRows, Zip, Plan.Dispatch;
  }

  /** ReservationsByPlan, in some order. */
  method ListReservations(reservations: map<Id, Reservation>, planId: Id) returns (listing: seq<Id>)
    ensures Lists(reservations, planId, listing)
  {
    listing := [];
    var todo := reservations.Keys;
    while todo != {}
      invariant todo <= reservations.Keys
      invariant Distinct(listing) && forall id :: id in listing <==> id in reservations && id !in todo && reservations[id].planId == planId
    {
      var id :| id in todo;
      if reservations[id].planId == planId {
        listing := listing + [id];
      }
      todo := todo - {id};
    }
  }

  /** The loop of Dispatch over the reservations. */
  method MakeJobs(planId: Id, listing: seq<Id>, reservations: map<Id, Reservation>, now: Instant)
    returns (refused: Option<Fault>, jobs: seq<Job>)
    requires forall id :: id in listing ==> id in reservations
    ensures refused.None? <==> JobsCreatable(planId, listing, reservations, now)
    ensures refused.None? ==> jobs == JobRows(planId, listing, reservations, now)
    ensures refused.None? ==> |jobs| == |listing|
  {
    jobs := [];
    for i := 0 to |listing|
      invariant JobsCreatable(planId, listing[..i], reservations, now)
      invariant jobs == JobRows(planId, listing[..i], reservations, now)
    {
      var job := NewJob(planId, reservations[listing[i]].clusterId, MAX_ATTEMPTS, now);
      if job.Err? {
        return Some(job.fault), jobs;
      }
      jobs := jobs + [job.value];
    }
    assert listing[..|listing|] == listing;
    refused := None;
  }

  /** The reads of a submission all happened between two moments, and its order is one over the selected clusters. */
  ghost predicate ReadBetween(c: Call, first: nat, last: nat)
    requires c.SubmitPlan?
  {
    && first <= c.at <= c.siteAt <= last && |c.clustersAt| == |c.clusterIds|
    && (forall i :: 0 <= i < |c.clustersAt| ==> c.siteAt <= c.clustersAt[i] <= last)
    && (Distinct(c.clusterIds) ==> Enumerates(c.order, set id | id in c.clusterIds))
  }

  /** The loop of Submit over the selected clusters, once the power is divided. */
  method MakeReservations(planId: Id, plan: Plan, clusterIds: seq<Id>, shares: map<Id, int>)
    returns (refused: Option<Fault>, rows: seq<Reservation>)
    requires forall id :: id in clusterIds ==> id in shares && !Blank(id)
    ensures refused.None? <==> (clusterIds != [] ==> !Blank(planId) && plan.window.start < plan.window.end)
                               && forall id :: id in clusterIds ==> shares[id] > 0
    ensures refused.None? ==> rows == ReservationRows(planId, plan, clusterIds, shares)
  {
    rows := [];
    for i := 0 to |clusterIds|
      invariant rows == ReservationRows(planId, plan, clusterIds[..i], shares)
      invariant i > 0 ==> !Blank(planId) && plan.window.start < plan.window.end
      invariant forall k :: 0 <= k < i ==> shares[clusterIds[k]] > 0
    {
      var row := NewReservation(planId, clusterIds[i], shares[clusterIds[i]], plan.window);
      if row.Err? {
        return Some(row.fault), rows;
      }
      rows := rows + [row.value];
    }
    assert clusterIds[..|clusterIds|] == clusterIds;
    refused := None;
  }

  /** From the allocation to the submitted plan: what is computed from the rows alone. */
  method Compute(planId: Id, plan: Plan, clusterIds: seq<Id>, rows: seq<Cluster>, ratings: map<Id, int>)
    returns (computed: Result<(Plan, seq<Reservation>)>, ghost order: seq<Id>)
    requires |rows| == |clusterIds| && Distinct(clusterIds) && forall i :: 0 <= i < |rows| ==> ClusterChosen(plan, rows[i])
    requires ratings == Zip(clusterIds, RatingsOf(rows)) && ratings.Keys == (set id | id in clusterIds)
    ensures Enumerates(order, set id | id in clusterIds)
    ensures computed.Ok? <==> Accepted(planId, plan, clusterIds, rows, order)
    ensures computed.Ok? ==>
              && Selectable(plan, clusterIds, rows, order)
              && computed.value.0 == plan.(status := PlanStatus.Submitted, version := plan.version + 1)
              && (forall id :: id in clusterIds ==> id in Shares(plan, clusterIds, rows, order))
              && computed.value.1 == ReservationRows(planId, plan, clusterIds, Shares(plan, clusterIds, rows, order))
    ensures computed.Ok? ==> |computed.value.1| == |clusterIds| && Sum(PowerOf(Zip(clusterIds, computed.value.1))) == plan.requestedKW
  {
    hide Accepted, Selectable, Shares, Zip, Blank, ClusterChosen;
    var allocation;
    allocation, order := AllocatePower(plan.requestedKW, ratings);
    if allocation.Err? {
      order := clusterIds;
      AllocatableIffSelectable(plan, clusterIds, rows, order);
      NotAccepted(planId, plan, clusterIds, rows, order);
      return Err(allocation.fault), order;
    }
    AllocatableIffSelectable(plan, clusterIds, rows, order);
    RatingsAreValid(clusterIds, rows, ratings);
    AcceptedIff(planId, plan, clusterIds, rows, order, allocation.value);
    var invalid, reservations := MakeReservations(planId, plan, clusterIds, allocation.value);
    if invalid.Some? {
      return Err(invalid.value), order;
    }
    var submitted := plan.Submit(|reservations|, plan.requestedKW);
    RowsHoldPower(planId, plan, clusterIds, allocation.value, clusterIds);
    computed := if submitted.Err? then Err(submitted.fault) else Ok((submitted.value, reservations));
  }

  const DUPLICATE := Fault(Invalid, "duplicate_cluster")

  /** What stops the selection at position i. */
  function ChoiceFault(db: Db, plan: Plan, clusterIds: seq<Id>, i: nat): Option<Fault>
    requires i < |clusterIds|
  {
    if clusterIds[i] in clusterIds[..i] then Some(DUPLICATE)
    else if clusterIds[i] !in db.clusters then Some(NOT_FOUND)
    else Unsuitable(plan, db.clusters[clusterIds[i]])
  }

  /** Position i is the first at which the selection is refused: a repetition, no such cluster, or an obstacle in its row. */
  ghost predicate StopsAt(h: History, plan: Plan, clusterIds: seq<Id>, clustersAt: seq<nat>, i: int, fault: Fault) {
    && 0 <= i < |clusterIds| && i < |clustersAt| && clustersAt[i] < |h|
    && Chosen(h, plan, clusterIds[..i], clustersAt[..i])
    && var (repeated, known) := (clusterIds[i] in clusterIds[..i], clusterIds[i] in h[clustersAt[i]].clusters);
       && (fault == Fault(Invalid, "duplicate_cluster") <==> repeated)
       && (fault == Fault(NotFound, "not_found") <==> !repeated && !known)
       && (!repeated && known ==> !ClusterChosen(plan, h[clustersAt[i]].clusters[clusterIds[i]])
                                  && Explains(fault, plan, h[clustersAt[i]].clusters[clusterIds[i]]))
  }

  lemma ChoiceStops(h: History, plan: Plan, clusterIds: seq<Id>, clustersAt: seq<nat>, i: nat)
    requires i < |clusterIds| && i < |clustersAt| && clustersAt[i] < |h| && Chosen(h, plan, clusterIds[..i], clustersAt[..i])
    requires ChoiceFault(h[clustersAt[i]], plan, clusterIds, i).Some?
    ensures StopsAt(h, plan, clusterIds, clustersAt, i, ChoiceFault(h[clustersAt[i]], plan, clusterIds, i).value)
  {
    hide Unsuitable, Chosen, ClusterChosen, Explains;
    if clusterIds[i] in h[clustersAt[i]].clusters {
      UnsuitableIff(plan, h[clustersAt[i]].clusters[clusterIds[i]]);
      ConflictsOnly(plan, h[clustersAt[i]].clusters[clusterIds[i]]);
    }
  }

  lemma ConflictsOnly(plan: Plan, row: Cluster)
    ensures forall fault :: Explains(fault, plan, row) ==> fault.kind.Conflict?
  {
  }

  lemma NothingChosen(h: History, plan: Plan)
    ensures Chosen(h, plan, [], []) && ClustersRead(h, [], []) && ClusterRows(h, [], []) == []
    ensures Zip([], RatingsOf([])) == map[]
  {
  }

  lemma RowUnsuitable(h: History, plan: Plan, clusterIds: seq<Id>, clustersAt: seq<nat>, i: nat)
    requires i < |clusterIds| == |clustersAt| && clustersAt[i] == |h| - 1 && ChoiceFault(Last(h), plan, clusterIds, i).Some?
    ensures !Chosen(h, plan, clusterIds, clustersAt)
  {
    hide Unsuitable, ClusterChosen, Explains;
    if clusterIds[i] in Last(h).clusters { UnsuitableIff(plan, Last(h).clusters[clusterIds[i]]); }
  }

  lemma ChosenExtends(h: History, plan: Plan, clusterIds: seq<Id>, clustersAt: seq<nat>, now: nat, i: nat, rows: seq<Cluster>)
    requires i < |clusterIds| && |clustersAt| == i == |rows| && now == |h| - 1
    requires Chosen(h, plan, clusterIds[..i], clustersAt) && ClustersRead(h, clusterIds[..i], clustersAt)
    requires rows == ClusterRows(h, clusterIds[..i], clustersAt) && ChoiceFault(Last(h), plan, clusterIds, i).None?
    ensures clusterIds[i] in Last(h).clusters && Chosen(h, plan, clusterIds[..i + 1], clustersAt + [now])
    ensures ClustersRead(h, clusterIds[..i + 1], clustersAt + [now])
    ensures rows + [Last(h).clusters[clusterIds[i]]] == ClusterRows(h, clusterIds[..i + 1], clustersAt + [now])
    ensures Zip(clusterIds[..i + 1], RatingsOf(rows + [Last(h).clusters[clusterIds[i]]]))
            == Zip(clusterIds[..i], RatingsOf(rows))[clusterIds[i] := Last(h).clusters[clusterIds[i]].ratedPowerKW]
  {
    hide Unsuitable, ClusterChosen, Explains;
    if clusterIds[i] in Last(h).clusters { UnsuitableIff(plan, Last(h).clusters[clusterIds[i]]); }
    var (ids, ratings) := (clusterIds[..i + 1], RatingsOf(rows + [Last(h).clusters[clusterIds[i]]]));
    assert ids[..i] == clusterIds[..i] && ratings[..i] == RatingsOf(rows);
    assert ids == clusterIds[..i] + [clusterIds[i]];
  }
}
