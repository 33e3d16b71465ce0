/**
 * Histories built call by call: what the guarantees do not rule out really happens.
 * Each step says what one undisturbed call does to the current database.
 */
module Scenarios {
  import opened Prelude
  import opened TimeEncoding
  import opened Allocation
  import opened Clock
  import opened Sites
  import opened Plans
  import opened Jobs
  import opened Tables
  import opened Machine
  import opened Invariants
  import opened Preservation
  import opened Submissions
  import opened Dispatches
  import opened Reachable
  import opened Progress
  import Leasing
  import Capacity

  lemma Names()
    ensures !Blank("x") && !Blank("y") && "x" != "y" && Trim("x") == "x"
  {
    PrintableIsNoSpace("x"[0]);
    PrintableIsNoSpace("y"[0]);
    TrimPrintable("x");
    assert "x"[0] != "y"[0];
  }

  // ----- Single steps -----

  lemma AddsSite(h: History, id: Id)
    requires id !in Last(h).sites
    ensures Try(h, CreateSite(id, 1000)) == Some(Last(h).(sites := Last(h).sites[id := Site(1000, 0, Commissioning, 1)]))
  {
  }

  lemma Activates(h: History, id: Id)
    requires id in Last(h).sites && Last(h).sites[id] == Site(1000, 0, Commissioning, 1)
    ensures Try(h, TransitionSite(id, Active, 1, |h| - 1)) == Some(Last(h).(sites := Last(h).sites[id := Site(1000, 0, Active, 2)]))
  {
  }

  lemma AddsCluster(h: History, id: Id, siteId: Id)
    requires siteId in Last(h).sites && Last(h).sites[siteId].status.Active? && id !in Last(h).clusters && !Blank(siteId)
    ensures Try(h, CreateCluster(id, NewCluster(siteId, 60, 100, 0, 100, 50), |h| - 1))
            == Some(Last(h).(clusters := Last(h).clusters[id := Cluster(siteId, 60, 100, 0, 100, 50, Available, 0, None, 1)]))
  {
    hide Blank;
  }

  /** Windows that a plan can have. */
  predicate Plannable(w: Window) { w.FourDigitYears() && MINUTE <= w.Duration() <= 7 * DAY }

  function Draft60(siteId: Id, user: Id, w: Window): Plan { Plan(siteId, Charge, 60, 1, w, Draft, user, None, None, 1) }

  lemma AddsPlan(h: History, id: Id, siteId: Id, user: Id, w: Window)
    requires siteId in Last(h).sites && id !in Last(h).plans && !Blank(siteId) && !Blank(user) && Plannable(w)
    ensures Try(h, CreatePlan(id, NewPlan(siteId, Charge, 60, 1, w.start, w.end, user), 0, |h| - 1))
            == Some(Last(h).(plans := Last(h).plans[id := Draft60(siteId, user, w)]))
  {
    hide Blank, SqlLess, Window.FourDigitYears;
    MinuteWindowsAreOrderedAsText(w);
    assert MaximumEnergy(60, w.Duration()) == w.Duration() / MINUTE >= 1;
    assert Plans.CreatePlan(NewPlan(siteId, Charge, 60, 1, w.start, w.end, user), 0) == Ok(Draft60(siteId, user, w));
    hide Plans.CreatePlan;
    TryIs(h, CreatePlan(id, NewPlan(siteId, Charge, 60, 1, w.start, w.end, user), 0, |h| - 1));
  }

  lemma Degrades(h: History, id: Id)
    requires id in Last(h).clusters && 0 <= Last(h).clusters[id].currentSoc <= 100
    ensures Try(h, DegradeCluster(id, |h| - 1)) == Some(Last(h).(clusters := Last(h).clusters[id := Last(h).clusters[id].MarkDegraded()]))
  {
  }

  lemma Recovers(h: History, id: Id)
    requires id in Last(h).clusters && Last(h).clusters[id].status.Degraded? && Last(h).clusters[id].currentSoc == 50
    requires Last(h).clusters[id].minSoc == 0 && Last(h).clusters[id].maxSoc == 100
    ensures var row := Last(h).clusters[id];
            Try(h, RecoverCluster(id, |h| - 1))
            == Some(Last(h).(clusters := Last(h).clusters[id := row.(status := Available, version := row.version + 1)]))
  {
  }

  // ----- A submission on one cluster -----

  function SubmitOn(user: Id, planId: Id, x: Id, r: Id, now: nat): Call {
    SubmitPlan(user, planId, 1, [x], [x], [r], now, now, [now], true)
  }

  /** A draft of 60 kW and a cluster that can take it, on an active site with room. */
  ghost predicate CanTake(db: Db, planId: Id, x: Id, siteId: Id, user: Id, w: Window) {
    && planId in db.plans && db.plans[planId] == Draft60(siteId, user, w)
    && siteId in db.sites && db.sites[siteId].status.Active? && 60 <= db.sites[siteId].AvailableKW()
    && x in db.clusters && db.clusters[x].siteId == siteId && db.clusters[x].status.Available?
    && db.clusters[x].ratedPowerKW == 60 && db.clusters[x].currentSoc == 50 && db.clusters[x].maxSoc == 100
    && !ConflictExists(db.reservations, x, w)
  }

  lemma OneRating(x: Id, row: Cluster)
    requires row.ratedPowerKW == 60
    ensures Zip([x], RatingsOf([row])) == map[x := 60] && Sum(map[x := 60]) == 60
    ensures Enumerates([x], Zip([x], RatingsOf([row])).Keys)
  {
    assert [x][..0] == [] && RatingsOf([row])[..0] == [];
    SumRemove(map[x := 60], x);
    assert map[x := 60] - {x} == map[];
  }

  lemma OneShare(plan: Plan, x: Id, row: Cluster)
    requires plan.requestedKW == 60 && Selectable(plan, [x], [row], [x]) && row.ratedPowerKW == 60
    ensures Shares(plan, [x], [row], [x]) == map[x := 60]
  {
    hide Selectable, Shares;
    SharesAreExact(plan, [x], [row], [x]);
    var shares := Shares(plan, [x], [row], [x]);
    assert x in shares.Keys;
    SumRemove(shares, x);
    assert shares - {x} == map[];
    assert Sum(shares - {x}) == 0;
  }

  lemma OneIsAccepted(planId: Id, siteId: Id, user: Id, w: Window, x: Id, row: Cluster)
    requires !Blank(planId) && !Blank(x) && w.start < w.end && row.siteId == siteId && row.status.Available?
    requires row.ratedPowerKW == 60 && row.currentSoc == 50 && row.maxSoc == 100
    ensures ClusterChosen(Draft60(siteId, user, w), row)
    ensures Accepted(planId, Draft60(siteId, user, w), [x], [row], [x])
  {
    hide Blank, Zip, Enumerates;
    var plan := Draft60(siteId, user, w);
    OneRating(x, row);
    assert Selectable(plan, [x], [row], [x]);
    hide Selectable, Shares;
    OneShare(plan, x, row);
  }

  lemma OneIsReady(h: History, planId: Id, siteId: Id, user: Id, w: Window, x: Id, r: Id)
    requires CanTake(Last(h), planId, x, siteId, user, w) && !Blank(planId) && !Blank(x) && w.start < w.end
    ensures Ready(h, SubmitOn(user, planId, x, r, |h| - 1))
    ensures ClustersRead(h, [x], [|h| - 1]) && ClusterRows(h, [x], [|h| - 1]) == [Last(h).clusters[x]]
  {
    hide Accepted, ClusterChosen, ConflictExists, Blank;
    OneIsAccepted(planId, siteId, user, w, x, Last(h).clusters[x]);
    assert ClusterRows(h, [x], [|h| - 1]) == [Last(h).clusters[x]];
  }

  ghost function Booked(db: Db, planId: Id, x: Id, r: Id, siteId: Id): Db
    requires planId in db.plans && siteId in db.sites && x in db.clusters
  {
    db.(sites := db.sites[siteId := TakePower(db.sites[siteId], 60)],
        clusters := db.clusters[x := Taken(db.clusters[x])],
        plans := db.plans[planId := db.plans[planId].(status := Submitted, version := 2)],
        reservations := db.reservations[r := Reservation(planId, x, 60, db.plans[planId].window, Held)])
  }

  lemma OneRow(planId: Id, plan: Plan, x: Id, r: Id, db: Db)
    requires x in db.clusters
    ensures var rows := ReservationRows(planId, plan, [x], map[x := 60]);
            && Zip([r], rows) == map[r := Reservation(planId, x, 60, plan.window, Held)]
            && TakeClusters(db.clusters, ClustersOf(rows)) == db.clusters[x := Taken(db.clusters[x])]
  {
    var rows := ReservationRows(planId, plan, [x], map[x := 60]);
    assert [r][..0] == [] && rows[..0] == [];
    assert rows[0] in rows && ClustersOf(rows) == {x};
  }

  function TheSubmission(planId: Id, siteId: Id, user: Id, w: Window, x: Id, r: Id, siteVersion: int): (s: Submission)
    ensures |s.ids| == |s.rows| == 1
  {
    var plan := Draft60(siteId, user, w);
    Submission(planId, plan.(status := Submitted, version := 2), 1, [r],
               ReservationRows(planId, plan, [x], map[x := 60]), siteId, 60, siteVersion)
  }

  lemma SubmitRequests(h: History, planId: Id, siteId: Id, user: Id, w: Window, x: Id, r: Id)
    requires CanTake(Last(h), planId, x, siteId, user, w) && !Blank(planId) && !Blank(x) && w.start < w.end
    ensures Ready(h, SubmitOn(user, planId, x, r, |h| - 1))
    ensures Requested(h, SubmitOn(user, planId, x, r, |h| - 1))
            == Some(TheSubmission(planId, siteId, user, w, x, r, Last(h).sites[siteId].version))
  {
    var c := SubmitOn(user, planId, x, r, |h| - 1);
    OneIsReady(h, planId, siteId, user, w, x, r);
    hide Ready, ConflictExists, Blank, Requested, ReservationRows, Shares, Selectable, ClusterRows, ClustersRead;
    ReadyMakes(h, c);
    OneShare(Draft60(siteId, user, w), x, Last(h).clusters[x]);
  }

  lemma SubmitCommits(h: History, planId: Id, siteId: Id, user: Id, w: Window, x: Id, r: Id)
    requires IsHistory(h) && CanTake(Last(h), planId, x, siteId, user, w) && !Blank(planId) && !Blank(x) && w.start < w.end
    requires r !in Last(h).reservations
    ensures TrySubmit(h, SubmitOn(user, planId, x, r, |h| - 1)).Some?
  {
    var c := SubmitOn(user, planId, x, r, |h| - 1);
    OneIsReady(h, planId, siteId, user, w, x, r);
    hide IsHistory, Ready, ConflictExists, Blank, TrySubmit;
    SubmitCommitsIff(h, c);
  }

  /** What an undisturbed submission on one suitable cluster does. */
  lemma Submits(h: History, planId: Id, siteId: Id, user: Id, w: Window, x: Id, r: Id)
    requires IsHistory(h) && CanTake(Last(h), planId, x, siteId, user, w) && !Blank(planId) && !Blank(x) && Plannable(w)
    requires r !in Last(h).reservations
    ensures Try(h, SubmitOn(user, planId, x, r, |h| - 1)) == Some(Booked(Last(h), planId, x, r, siteId))
  {
    var (c, db, plan) := (SubmitOn(user, planId, x, r, |h| - 1), Last(h), Draft60(siteId, user, w));
    assert w.start < w.end;
    hide IsHistory, Ready, ConflictExists, Blank, Plannable, Requested, SubmitTx, TrySubmit, Zip, TakeClusters, ReservationRows, Try;
    SubmitRequests(h, planId, siteId, user, w, x, r);
    SubmitCommits(h, planId, siteId, user, w, x, r);
    TryIs(h, c);
    SubmissionIs(h, c);
    hide Booked;
    TheSubmissionBooks(db, planId, siteId, user, w, x, r);
  }

  lemma TheSubmissionBooks(db: Db, planId: Id, siteId: Id, user: Id, w: Window, x: Id, r: Id)
    requires CanTake(db, planId, x, siteId, user, w)
    requires SubmitTx(db, TheSubmission(planId, siteId, user, w, x, r, db.sites[siteId].version), true).Some?
    ensures SubmitTx(db, TheSubmission(planId, siteId, user, w, x, r, db.sites[siteId].version), true)
            == Some(Booked(db, planId, x, r, siteId))
  {
    hide ConflictExists, SubmitTx, Zip, TakeClusters, ClustersOf, ReservationRows;
    var s := TheSubmission(planId, siteId, user, w, x, r, db.sites[siteId].version);
    OneRow(planId, Draft60(siteId, user, w), x, r, db);
    SubmitWrites(db, s, true, 1);
    assert db.reservations + map[r := Reservation(planId, x, 60, w, Held)] == db.reservations[r := Reservation(planId, x, 60, w, Held)];
  }

  lemma SubmissionIs(h: History, c: Call)
    requires c.SubmitPlan? && TrySubmit(h, c).Some?
    ensures Requested(h, c).Some? && TrySubmit(h, c) == SubmitTx(Last(h), Requested(h, c).value, c.audited)
  {
    hide Requested, SubmitTx;
  }

  // ----- Building histories -----

  lemma Extends(h: History, c: Call)
    requires IsHistory(h) && Try(h, c).Some?
    ensures IsHistory(Extend(h, c)) && Last(Extend(h, c)) == Try(h, c).value
  {
    hide IsHistory, Try;
    ExtendIsHistory(h, c);
  }

  lemma Begun() returns (h: History)
    ensures IsHistory(h) && Last(h) == EMPTY
  {
    h := [EMPTY];
  }

  function Founded(): Db {
    EMPTY.(sites := map["x" := Site(1000, 0, Active, 2)],
           clusters := map["x" := Cluster("x", 60, 100, 0, 100, 50, Available, 0, None, 1)])
  }

  /** An active site with one available cluster. */
  lemma FoundedHistory() returns (h: History)
    ensures IsHistory(h) && Last(h) == Founded()
  {
    hide IsHistory, Try, Blank;
    Names();
    h := Begun();
    AddsSite(h, "x");
    Extends(h, CreateSite("x", 1000));
    h := Extend(h, CreateSite("x", 1000));
    Activates(h, "x");
    var c := TransitionSite("x", Active, 1, |h| - 1);
    Extends(h, c);
    h := Extend(h, c);
    AddsCluster(h, "x", "x");
    c := CreateCluster("x", NewCluster("x", 60, 100, 0, 100, 50), |h| - 1);
    Extends(h, c);
    h := Extend(h, c);
  }

  /** The write of a transition stays although its caller is told of a failure, if the audit insert fails. */
  lemma FailedCallsCanHaveWritten()
    ensures exists h: History, c: Call ::
              IsHistory(h) && c.TransitionSite? && !ReportsSuccess(h, c, false) && Exec(h, c) != Last(h)
  {
    hide IsHistory, Try;
    var h := Begun();
    AddsSite(h, "x");
    Extends(h, CreateSite("x", 1000));
    var g := Extend(h, CreateSite("x", 1000));
    Activates(g, "x");
    var c := TransitionSite("x", Active, 1, |g| - 1);
    Extends(g, c);
    assert Exec(g, c) != Last(g);
  }

  // ----- Two reservations that conflict -----

  function TwoDrafts(held: Window, wanted: Window): Db {
    Founded().(plans := map["x" := Draft60("x", "x", held), "y" := Draft60("x", "x", wanted)])
  }

  lemma Drafted(held: Window, wanted: Window) returns (h: History)
    requires Plannable(held) && Plannable(wanted)
    ensures IsHistory(h) && Last(h) == TwoDrafts(held, wanted)
  {
    hide IsHistory, Try, Blank, Plannable;
    Names();
    h := FoundedHistory();
    AddsPlan(h, "x", "x", "x", held);
    var c := CreatePlan("x", NewPlan("x", Charge, 60, 1, held.start, held.end, "x"), 0, |h| - 1);
    Extends(h, c);
    h := Extend(h, c);
    AddsPlan(h, "y", "x", "x", wanted);
    c := CreatePlan("y", NewPlan("x", Charge, 60, 1, wanted.start, wanted.end, "x"), 0, |h| - 1);
    Extends(h, c);
    h := Extend(h, c);
  }

  ghost function Freed(held: Window, wanted: Window): Db {
    var db := Booked(TwoDrafts(held, wanted), "x", "x", "x", "x");
    db.(clusters := map["x" := Cluster("x", 60, 100, 0, 100, 50, Available, 0, None, 4)])
  }

  /** The first plan is submitted; its cluster degrades and recovers, and is available again. */
  lemma FreedHistory(held: Window, wanted: Window) returns (h: History)
    requires Plannable(held) && Plannable(wanted)
    ensures IsHistory(h) && Last(h) == Freed(held, wanted)
  {
    hide IsHistory, Try, Blank, Plannable;
    Names();
    h := Drafted(held, wanted);
    Submits(h, "x", "x", "x", held, "x", "x");
    var c := SubmitOn("x", "x", "x", "x", |h| - 1);
    Extends(h, c);
    h := Extend(h, c);
    Degrades(h, "x");
    c := DegradeCluster("x", |h| - 1);
    Extends(h, c);
    h := Extend(h, c);
    Recovers(h, "x");
    c := RecoverCluster("x", |h| - 1);
    Extends(h, c);
    h := Extend(h, c);
    assert Last(h).clusters == Freed(held, wanted).clusters;
  }

  /** Two stored reservations of these windows conflict, in a state of some history. */
  ghost predicate StoredConflict(h: History, a: Id, b: Id, held: Window, wanted: Window) {
    && IsHistory(h) && a in Last(h).reservations && b in Last(h).reservations && a != b
    && Last(h).reservations[a].window == held && Last(h).reservations[b].window == wanted
    && Last(h).reservations[a].Conflicts(Last(h).reservations[b])
  }

  lemma MissedOverlapIsStored(held: Window, wanted: Window) returns (h: History)
    requires Plannable(held) && Plannable(wanted) && held.Overlaps(wanted) && !held.SqlOverlaps(wanted)
    ensures StoredConflict(h, "x", "y", held, wanted)
  {
    hide IsHistory, Try, Blank, Plannable, Window.SqlOverlaps;
    Names();
    h := FreedHistory(held, wanted);
    assert !ConflictExists(Last(h).reservations, "x", wanted);
    Submits(h, "y", "x", "x", wanted, "x", "y");
    var c := SubmitOn("x", "y", "x", "y", |h| - 1);
    Extends(h, c);
    h := Extend(h, c);
  }

  /**
   * Exactly which windows can be booked twice on one cluster: those that overlap and have
   * a bound whose text is not comparable with the other's.
   */
  lemma ConflictCanBeStoredIff(held: Window, wanted: Window)
    requires Plannable(held) && Plannable(wanted)
    ensures (exists h: History, a, b :: StoredConflict(h, a, b, held, wanted))
            <==> held.Overlaps(wanted) && !held.ComparableWith(wanted)
  {
    hide IsHistory, Window.SqlOverlaps, Window.ComparableWith;
    if h: History, a, b :| StoredConflict(h, a, b, held, wanted) {
      Capacity.ConflictsNeedIncomparableBounds(h, |h| - 1, a, b);
    }
    if held.Overlaps(wanted) && !held.ComparableWith(wanted) {
      OverlapDetectedIff(held, wanted);
      var h := MissedOverlapIsStored(held, wanted);
    }
  }

  /** For instance [0 min, 1 min + 0.5 s) and [1 min, 2 min). */
  lemma OverlapCanBeStored() returns (h: History)
    ensures StoredConflict(h, "x", "y", Window(0, MINUTE + SECOND / 2), Window(MINUTE, 2 * MINUTE))
  {
    hide IsHistory, Window.SqlOverlaps;
    var minute: nat :| minute == MINUTE;
    forall t: nat | t <= 2 * minute ensures FourDigitYear(t) { }
    OverlapCanBeMissed();
    hide FourDigitYear;
    h := MissedOverlapIsStored(Window(0, MINUTE + SECOND / 2), Window(MINUTE, 2 * MINUTE));
  }

  // ----- More attempts than the limit -----

  /** The state once the plan of one cluster is submitted, approved and dispatched. */
  ghost predicate DispatchedOnce(db: Db) {
    db.jobs == map["x" := Job("x", "x", Pending, 0, 5, 0, "", None, "", 1)]
  }

  ghost predicate AtStage(db: Db, stage: Plan) {
    && "x" in db.plans && db.plans["x"] == stage && db.jobs == map[]
    && db.reservations == map["x" := Reservation("x", "x", 60, stage.window, Held)]
  }

  lemma Approves(h: History, plan: Plan)
    requires IsHistory(h) && AtStage(Last(h), plan) && plan.status.Submitted? && plan.createdBy == "x" && plan.version == 2
    ensures var c := ApprovePlan("y", "x", 2, 0, |h| - 1);
            var after := plan.(status := Approved, approvedBy := Some("y"), approvedAt := Some(0), version := 3);
            IsHistory(Extend(h, c)) && AtStage(Last(Extend(h, c)), after)
  {
    var c := ApprovePlan("y", "x", 2, 0, |h| - 1);
    Names();
    hide IsHistory, Try;
    TryIs(h, c);
    Extends(h, c);
  }

  lemma IsDispatched(h: History, plan: Plan)
    requires IsHistory(h) && AtStage(Last(h), plan) && plan.status.Approved? && plan.version == 3
    ensures var c := DispatchPlan("x", 3, ["x"], ["x"], 0, |h| - 1, |h| - 1, true);
            IsHistory(Extend(h, c)) && DispatchedOnce(Last(Extend(h, c)))
  {
    var c := DispatchPlan("x", 3, ["x"], ["x"], 0, |h| - 1, |h| - 1, true);
    OneListed(h, plan);
    hide IsHistory, Try, TryDispatch, Zip, HistoryInv, UndisturbedDispatch, NamedJobs, JobsCreatable, Plan.Dispatch, JobRows;
    DispatchCommitsIff(h, c);
    HistoryIsSound(h);
    DispatchWrites(h, c);
    TryIs(h, c);
    Extends(h, c);
    OneJob(Last(h).reservations);
  }

  lemma OneListed(h: History, plan: Plan)
    requires AtStage(Last(h), plan)
    ensures var c := DispatchPlan("x", 3, ["x"], ["x"], 0, |h| - 1, |h| - 1, true);
            UndisturbedDispatch(h, c) && NamedJobs("x", ["x"], Last(h).reservations)
  {
    Names();
    hide Blank;
  }

  lemma OneJob(reservations: map<Id, Reservation>)
    requires "x" in reservations && reservations["x"].clusterId == "x"
    ensures map[] + Zip(["x"], JobRows("x", ["x"], reservations, 0)) == map["x" := Job("x", "x", Pending, 0, 5, 0, "", None, "", 1)]
  {
    var jobs := JobRows("x", ["x"], reservations, 0);
    assert ["x"][..0] == [] && jobs[..0] == [];
  }

  lemma DispatchedHistory() returns (h: History)
    ensures IsHistory(h) && DispatchedOnce(Last(h))
  {
    hide IsHistory, Try, Blank, Plannable, AtStage, DispatchedOnce;
    Names();
    var w := Window(0, 2 * MINUTE);
    WindowIsPlannable();
    h := Drafted(w, w);
    Submits(h, "x", "x", "x", w, "x", "x");
    var c := SubmitOn("x", "x", "x", "x", |h| - 1);
    Extends(h, c);
    h := Extend(h, c);
    var plan := Draft60("x", "x", w).(status := Submitted, version := 2);
    BookedIsAtStage(w);
    Approves(h, plan);
    h := Extend(h, ApprovePlan("y", "x", 2, 0, |h| - 1));
    plan := plan.(status := Approved, approvedBy := Some("y"), approvedAt := Some(0), version := 3);
    IsDispatched(h, plan);
    h := Extend(h, DispatchPlan("x", 3, ["x"], ["x"], 0, |h| - 1, |h| - 1, true));
  }

  lemma WindowIsPlannable()
    ensures Plannable(Window(0, 2 * MINUTE))
  {
    var minute: nat :| minute == MINUTE;
    forall t: nat | t <= 2 * minute ensures FourDigitYear(t) { }
  }

  lemma BookedIsAtStage(w: Window)
    ensures AtStage(Booked(TwoDrafts(w, w), "x", "x", "x", "x"), Draft60("x", "x", w).(status := Submitted, version := 2))
  {
    Names();
  }

  /** The job after n claims, each at the moment the lease before it ends. */
  function ClaimedTimes(n: nat): Job {
    if n == 0 then Job("x", "x", Pending, 0, 5, 0, "", None, "", 1)
    else Job("x", "x", Leased, n, 5, 0, "x", Some(n * SECOND), "", n + 1)
  }

  function ClaimAt(n: nat): Call { ClaimJobs("x", 1, ["x"], n * SECOND, SECOND) }

  lemma ClaimsAgain(h: History, n: nat)
    requires IsHistory(h) && Last(h).jobs == map["x" := ClaimedTimes(n)] && n <= 60
    ensures IsHistory(Extend(h, ClaimAt(n))) && Last(Extend(h, ClaimAt(n))).jobs == map["x" := ClaimedTimes(n + 1)]
  {
    hide IsHistory, ClaimedTimes, Selected, ClaimTx, Exec;
    SelectedAgain(Last(h).jobs, n);
    LeasesAgain(Last(h), n);
    Leasing.ClaimRuns(h, ClaimAt(n));
    ExtendIsHistory(h, ClaimAt(n));
  }

  lemma LeasesAgain(db: Db, n: nat)
    requires db.jobs == map["x" := ClaimedTimes(n)]
    ensures ClaimTx(db, "x", ["x"], n * SECOND, SECOND).jobs == map["x" := ClaimedTimes(n + 1)]
  {
    OneLease(n);
    hide Job.Lease, ClaimedTimes;
    assert "x" in ["x"];
  }

  lemma OneLease(n: nat)
    ensures ClaimedTimes(n).Lease("x", n * SECOND, SECOND) == Ok(ClaimedTimes(n + 1))
  {
    Names();
    hide Blank, Trim;
  }

  lemma SelectedAgain(jobs: map<Id, Job>, n: nat)
    requires jobs == map["x" := ClaimedTimes(n)] && n <= 60
    ensures Selected(jobs, n * SECOND, 1, ["x"])
  {
    DueAgain(n);
    hide IsDue, ClaimedTimes, ClaimedBefore;
  }

  lemma EarlyYears(t: nat)
    requires t <= 2 * MINUTE
    ensures FourDigitYear(t)
  {
  }

  lemma DueAgain(n: nat)
    requires n <= 60
    ensures IsDue(ClaimedTimes(n), n * SECOND)
  {
    hide FourDigitYear, Comparable, IsDue;
    EarlyYears(n * SECOND);
    EarlyYears(0);
    WholeSecondsAre(n);
    Leasing.DueIsClaimable(ClaimedTimes(n), n * SECOND);
  }

  lemma WholeSecondsAre(n: nat)
    ensures Comparable(n * SECOND, 0) && Comparable(n * SECOND, n * SECOND)
  {
    WholeSecondsCompare(n * SECOND, 0);
    WholeSecondsCompare(n * SECOND, n * SECOND);
  }

  lemma {:induction false} ClaimedHistory(n: nat) returns (h: History)
    requires n <= 60
    ensures IsHistory(h) && Last(h).jobs == map["x" := ClaimedTimes(n)]
  {
    hide IsHistory, DispatchedOnce, ClaimedTimes, ClaimAt, Exec;
    if n == 0 {
      h := DispatchedHistory();
      DispatchedJob(Last(h));
    } else {
      var g := ClaimedHistory(n - 1);
      ClaimsAgain(g, n - 1);
      h := Extend(g, ClaimAt(n - 1));
    }
  }

  lemma DispatchedJob(db: Db)
    requires DispatchedOnce(db)
    ensures db.jobs == map["x" := ClaimedTimes(0)]
  {
  }

  /** A job made by the service, with limit 5, has had 6 attempts: five workers in turn let their lease run out. */
  lemma AttemptsPassTheLimit() returns (h: History)
    ensures IsHistory(h) && "x" in Last(h).jobs
    ensures Last(h).jobs["x"].maxAttempts == MAX_ATTEMPTS && Last(h).jobs["x"].attempts == MAX_ATTEMPTS + 1
  {
    hide IsHistory;
    h := ClaimedHistory(6);
  }
}
