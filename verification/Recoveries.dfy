/**
 * A reserved cluster is available again only through a recovery. Until then it cannot be
 * reserved a second time, so its reservations are disjoint whatever their windows.
 */
module Recoveries {
  import opened Prelude
  import opened Clock
  import opened Sites
  import opened Plans
  import opened Telemetry
  import opened Tables
  import opened Machine
  import opened Invariants
  import opened Preservation
  import opened Submissions
  import opened Reachable

  predicate Recovers(c: Call, id: Id) { c.RecoverCluster? && c.clusterId == id }

  /** A step by some call that does not recover the cluster. */
  ghost predicate StepWithout(h: History, k: nat, id: Id)
    requires 0 < k < |h|
  {
    exists c :: Leads(h[..k], c, h[k]) && !Recovers(c, id)
  }

  /** A history of calls none of which recovers the cluster. */
  ghost predicate HistoryWithout(h: History, id: Id) {
    h[0] == EMPTY && forall k :: 0 < k < |h| ==> StepWithout(h, k, id)
  }

  /** Every list of calls without a recovery of the cluster makes one. */
  lemma {:induction false} RunsWithout(calls: seq<Call>, id: Id)
    requires forall i :: 0 <= i < |calls| ==> !Recovers(calls[i], id)
    ensures HistoryWithout(Run(calls), id)
  {
    if calls != [] {
      var n := |calls| - 1;
      RunsWithout(calls[..n], id);
      hide Exec;
      var (a, h) := (Run(calls), Run(calls[..n]));
      forall k | 0 < k < |a| ensures StepWithout(a, k, id) {
        assert a[..k] == h[..k];
        if k < |h| {
          assert StepWithout(h, k, id);
          var c :| Leads(h[..k], c, h[k]) && !Recovers(c, id);
          assert Leads(a[..k], c, a[k]);
        } else {
          assert h[..k] == h;
          assert Leads(a[..k], calls[n], a[k]);
        }
      }
    }
  }

  lemma StepWithoutBy(h: History, k: nat, id: Id) returns (c: Call)
    requires HistoryWithout(h, id) && 0 < k < |h|
    ensures h[k] == Exec(h[..k], c) && !Recovers(c, id)
  {
    hide Exec;
    assert StepWithout(h, k, id);
    c :| Leads(h[..k], c, h[k]) && !Recovers(c, id);
  }

  /** It is a history like any other. */
  lemma IsAHistory(h: History, id: Id)
    requires HistoryWithout(h, id)
    ensures IsHistory(h)
  {
    hide Exec;
    forall k | 0 < k < |h| ensures IsStep(h, k) {
      var c := StepWithoutBy(h, k, id);
      assert Leads(h[..k], c, h[k]);
    }
  }

  lemma PrefixWithout(h: History, n: nat, id: Id)
    requires HistoryWithout(h, id) && 0 < n <= |h|
    ensures HistoryWithout(h[..n], id)
  {
    hide Exec;
    var a: History := h[..n];
    forall k | 0 < k < n ensures StepWithout(a, k, id) {
      assert a[..k] == h[..k];
      var c := StepWithoutBy(h, k, id);
      assert Leads(a[..k], c, a[k]);
    }
  }

  // ----- Held at most once -----

  ghost predicate Holds(reservations: map<Id, Reservation>, r: Id, id: Id) {
    r in reservations && reservations[r].clusterId == id
  }

  /** At most one reservation of the cluster, and none while it is available. */
  ghost predicate HeldOnce(clusters: map<Id, Cluster>, reservations: map<Id, Reservation>, id: Id) {
    && (forall a, b :: Holds(reservations, a, id) && Holds(reservations, b, id) ==> a == b)
    && (forall a :: Holds(reservations, a, id) ==> id in clusters && !clusters[id].status.Available?)
  }

  /** Cluster rows may change, as long as this one does not become available. */
  lemma StatusStays(a: map<Id, Cluster>, b: map<Id, Cluster>, reservations: map<Id, Reservation>, id: Id)
    requires HeldOnce(a, reservations, id)
    requires id in a ==> id in b && (b[id].status.Available? ==> a[id].status.Available?)
    ensures HeldOnce(b, reservations, id)
  {
  }

  /** Rows are inserted only on available clusters, each on its own, and take them. */
  lemma HeldRowsHoldOnce(db: Db, ids: seq<Id>, rows: seq<Reservation>, id: Id)
    requires |ids| == |rows| && AllFit(db, ids, rows) && HeldOnce(db.clusters, db.reservations, id)
    ensures HeldOnce(TakeClusters(db.clusters, ClustersOf(rows)), db.reservations + Zip(ids, rows), id)
  {
    if id in ClustersOf(rows) {
      var row :| row in rows && row.clusterId == id;
      var i :| 0 <= i < |rows| && rows[i] == row;
      assert RowFits(db, ids[i], rows[i]);
    }
    hide HeldOnce, Zip, ClustersOf, RowFits;
    ZippedClustersDiffer(ids, rows);
    AddedAreTaken(ids, rows);
    TakenOnce(db.clusters, ClustersOf(rows), db.reservations, Zip(ids, rows), id);
  }

  lemma TakenOnce(clusters: map<Id, Cluster>, taken: set<Id>, reservations: map<Id, Reservation>, added: map<Id, Reservation>, id: Id)
    requires HeldOnce(clusters, reservations, id) && (id in taken ==> id in clusters && clusters[id].status.Available?)
    requires forall r :: r in added ==> added[r].clusterId in taken
    requires forall a, b :: a in added && b in added && a != b ==> added[a].clusterId != added[b].clusterId
    ensures HeldOnce(TakeClusters(clusters, taken), reservations + added, id)
  {
    forall a | Holds(reservations + added, a, id)
      ensures if id in taken then Holds(added, a, id) else Holds(reservations, a, id)
    {
      assert a !in added ==> Holds(reservations, a, id);
    }
  }

  lemma AddedAreTaken(ids: seq<Id>, rows: seq<Reservation>)
    requires |ids| == |rows| && Distinct(ids)
    ensures forall r :: r in Zip(ids, rows) ==> Zip(ids, rows)[r].clusterId in ClustersOf(rows)
  {
    hide Zip;
    forall r | r in ids ensures Zip(ids, rows)[r].clusterId in ClustersOf(rows) {
      var i :| 0 <= i < |ids| && ids[i] == r;
      assert Zip(ids, rows)[ids[i]] == rows[i] && rows[i] in rows;
    }
  }

  lemma SubmitHoldsOnce(db: Db, s: Submission, audited: bool, id: Id)
    requires |s.ids| == |s.rows| && SubmitTx(db, s, audited).Some? && HeldOnce(db.clusters, db.reservations, id)
    ensures HeldOnce(SubmitTx(db, s, audited).value.clusters, SubmitTx(db, s, audited).value.reservations, id)
  {
    HeldRowsHoldOnce(db, s.ids, s.rows, id);
    hide HeldOnce, AllFit, Zip, ConflictExists, TakeClusters, ClustersOf;
  }

  lemma RecordHoldsOnce(h: History, c: Call, id: Id)
    requires c.RecordTelemetry? && TryRecord(h, c).Some? && HeldOnce(Last(h).clusters, Last(h).reservations, id)
    ensures HeldOnce(TryRecord(h, c).value.clusters, TryRecord(h, c).value.reservations, id)
  {
    hide TryRecord, TelemetryTx, Thresholds.Validate, RaiseAlarms, HeldOnce, AlarmRows;
    ReadingIsPrepared(h, c);
    var (db, r, row) := (Last(h), c.reading, h[c.at].clusters[c.reading.clusterId]);
    var rows := AlarmRows(row.siteId, r.clusterId, Conditions(Snapshot(r, c.now), c.thresholds));
    TelemetryWrites(db, c.snapshotId, Snapshot(r, c.now), r.soc, row.version, c.alarmIds, rows, c.audited);
    StatusStays(db.clusters, TryRecord(h, c).value.clusters, db.reservations, id);
  }

  lemma MaintenanceHoldsOnce(h: History, c: Call, id: Id)
    requires (c.DegradeCluster? || c.RecoverCluster?) && !Recovers(c, id) && TryMaintain(h, c).Some?
    requires HeldOnce(Last(h).clusters, Last(h).reservations, id)
    ensures HeldOnce(TryMaintain(h, c).value.clusters, TryMaintain(h, c).value.reservations, id)
  {
    hide HeldOnce, Cluster.Recover;
    StatusStays(Last(h).clusters, TryMaintain(h, c).value.clusters, Last(h).reservations, id);
  }

  /** A cluster that is only being created has no reservation yet. */
  lemma CreationHoldsOnce(h: History, c: Call, id: Id)
    requires c.CreateCluster? && TryCreateCluster(h, c).Some?
    requires HeldOnce(Last(h).clusters, Last(h).reservations, id)
    ensures HeldOnce(TryCreateCluster(h, c).value.clusters, TryCreateCluster(h, c).value.reservations, id)
  {
    hide Sites.CreateCluster;
  }

  lemma OtherCallsLeaveClusters(h: History, c: Call)
    requires !c.CreateCluster? && !c.DegradeCluster? && !c.RecoverCluster? && !c.SubmitPlan? && !c.RecordTelemetry?
    ensures Exec(h, c).clusters == Last(h).clusters && Exec(h, c).reservations == Last(h).reservations
  {
    hide Selected, Lists, JobsCreatable, JobRows, Zip, Finished, CanDispatch, Plans.CreatePlan, Sites.CreateSite, Alarm.Resolve;
  }

  lemma TryIsCluster(h: History, c: Call)
    ensures c.CreateCluster? ==> Try(h, c) == TryCreateCluster(h, c)
    ensures c.DegradeCluster? || c.RecoverCluster? ==> Try(h, c) == TryMaintain(h, c)
  {
    hide TryCreateCluster, TryMaintain;
  }

  lemma StepHoldsOnce(h: History, c: Call, id: Id)
    requires !Recovers(c, id) && HeldOnce(Last(h).clusters, Last(h).reservations, id)
    ensures HeldOnce(Exec(h, c).clusters, Exec(h, c).reservations, id)
  {
    TryIs(h, c);
    TryIsCluster(h, c);
    hide HeldOnce, Exec, Try, TrySubmit, TryRecord, TryMaintain, TryCreateCluster, Requested, SubmitTx;
    if Try(h, c).None? {
      assert Exec(h, c) == Last(h);
    } else if c.SubmitPlan? {
      SubmissionOf(h, c);
      SubmitHoldsOnce(Last(h), Requested(h, c).value, c.audited, id);
    } else if c.RecordTelemetry? {
      RecordHoldsOnce(h, c, id);
    } else if c.DegradeCluster? || c.RecoverCluster? {
      MaintenanceHoldsOnce(h, c, id);
    } else if c.CreateCluster? {
      CreationHoldsOnce(h, c, id);
    } else {
      OtherCallsLeaveClusters(h, c);
    }
  }

  lemma SubmissionOf(h: History, c: Call)
    requires c.SubmitPlan? && TrySubmit(h, c).Some?
    ensures Requested(h, c).Some? && TrySubmit(h, c) == SubmitTx(Last(h), Requested(h, c).value, c.audited)
  {
    hide Requested, SubmitTx;
  }

  // ----- The guarantee -----

  lemma {:induction false} HeldOnceWithoutRecovery(h: History, id: Id)
    requires HistoryWithout(h, id)
    ensures HeldOnce(Last(h).clusters, Last(h).reservations, id)
  {
    var n := |h| - 1;
    if n > 0 {
      hide HeldOnce, Exec;
      PrefixWithout(h, n, id);
      var c := StepWithoutBy(h, n, id);
      hide HistoryWithout;
      HeldOnceWithoutRecovery(h[..n], id);
      StepHoldsOnce(h[..n], c, id);
    }
  }

  /** Unless a cluster is recovered it never gets a second reservation. */
  lemma OneReservationWithoutRecovery(h: History, k: nat, id: Id, a: Id, b: Id)
    requires HistoryWithout(h, id) && k < |h| && a in h[k].reservations && b in h[k].reservations
    requires h[k].reservations[a].clusterId == id == h[k].reservations[b].clusterId
    ensures a == b
  {
    hide HistoryWithout;
    PrefixWithout(h, k + 1, id);
    HeldOnceWithoutRecovery(h[..k + 1], id);
    assert Last(h[..k + 1]) == h[k];
    assert Holds(h[k].reservations, a, id) && Holds(h[k].reservations, b, id);
  }

  /** So without recoveries of their cluster no two reservations conflict, whatever the text of their windows. */
  lemma NoConflictWithoutRecovery(h: History, k: nat, a: Id, b: Id)
    requires k < |h| && a in h[k].reservations && b in h[k].reservations && a != b
    requires HistoryWithout(h, h[k].reservations[a].clusterId)
    ensures !h[k].reservations[a].Conflicts(h[k].reservations[b])
  {
    hide HistoryWithout, Window.Overlaps;
    if h[k].reservations[a].clusterId == h[k].reservations[b].clusterId {
      OneReservationWithoutRecovery(h, k, h[k].reservations[a].clusterId, a, b);
    }
  }
}
