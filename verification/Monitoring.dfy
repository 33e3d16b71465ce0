/** Telemetry projection and alarms over whole runs. */
module Monitoring {
  import opened Prelude
  import opened Sites
  import opened Telemetry
  import opened Tables
  import opened Machine
  import opened Invariants
  import opened Preservation
  import opened Reachable
  import opened Refinement

  // ----- Projection -----

  ghost predicate IsOf(db: Db, s: Id, clusterId: Id) { s in db.snapshots && db.snapshots[s].reading.clusterId == clusterId }

  /** The snapshot of the cluster with the highest sequence; there is at most one. */
  ghost predicate Newest(db: Db, s: Id, clusterId: Id) {
    && IsOf(db, s, clusterId)
    && forall t :: IsOf(db, t, clusterId) && t != s ==> db.snapshots[t].reading.sequence < db.snapshots[s].reading.sequence
  }

  ghost predicate Shows(row: Cluster, reading: Reading) {
    row.latestSequence == reading.sequence && row.currentSoc == reading.soc && row.latestTelemetryAt == Some(reading.observedAt)
  }

  lemma ProjectedRowShows(db: Db, id: Id)
    requires Projected(db.clusters, db.snapshots) && id in db.clusters
    ensures (exists s :: IsOf(db, s, id)) ==> exists s :: Newest(db, s, id)
    ensures forall s :: Newest(db, s, id) ==> Shows(db.clusters[id], db.snapshots[s].reading)
    ensures (forall s :: !IsOf(db, s, id)) ==> db.clusters[id].latestSequence == 0 && db.clusters[id].latestTelemetryAt.None?
  {
    ProjectedParts(db, id);
    hide Projected, ProjectedRow;
    if some :| IsOf(db, some, id) {
      var s :| s in db.snapshots && IsLatest(db.snapshots[s].reading, db.clusters[id], id);
      assert Newest(db, s, id);
    }
  }

  lemma ProjectedParts(db: Db, id: Id)
    requires Projected(db.clusters, db.snapshots) && id in db.clusters
    ensures forall s :: IsOf(db, s, id) ==> 0 < db.snapshots[s].reading.sequence <= db.clusters[id].latestSequence
    ensures (exists s :: IsOf(db, s, id)) ==> exists s :: s in db.snapshots && IsLatest(db.snapshots[s].reading, db.clusters[id], id)
    ensures forall s :: s in db.snapshots && IsLatest(db.snapshots[s].reading, db.clusters[id], id) ==> IsOf(db, s, id)
    ensures forall a, b :: IsOf(db, a, id) && IsOf(db, b, id) && a != b ==>
              db.snapshots[a].reading.sequence != db.snapshots[b].reading.sequence
    ensures (forall s :: !IsOf(db, s, id)) ==> db.clusters[id].latestSequence == 0 && db.clusters[id].latestTelemetryAt.None?
  {
    assert ProjectedRow(db.clusters[id], id, db.snapshots);
    SequencesDiffer(db, id);
    hide Projected;
    RowParts(db, id);
    hide ProjectedRow;
  }

  lemma SequencesDiffer(db: Db, id: Id)
    requires Projected(db.clusters, db.snapshots)
    ensures forall a, b :: IsOf(db, a, id) && IsOf(db, b, id) && a != b ==>
              db.snapshots[a].reading.sequence != db.snapshots[b].reading.sequence
  {
    hide ProjectedRow;
  }

  lemma RowParts(db: Db, id: Id)
    requires id in db.clusters && ProjectedRow(db.clusters[id], id, db.snapshots)
    ensures forall s :: IsOf(db, s, id) ==> 0 < db.snapshots[s].reading.sequence <= db.clusters[id].latestSequence
    ensures (exists s :: IsOf(db, s, id)) ==> exists s :: s in db.snapshots && IsLatest(db.snapshots[s].reading, db.clusters[id], id)
    ensures forall s :: s in db.snapshots && IsLatest(db.snapshots[s].reading, db.clusters[id], id) ==> IsOf(db, s, id)
    ensures (forall s :: !IsOf(db, s, id)) ==> db.clusters[id].latestSequence == 0 && db.clusters[id].latestTelemetryAt.None?
  {
    if db.clusters[id].latestSequence != 0 {
      var s :| s in db.snapshots && IsLatest(db.snapshots[s].reading, db.clusters[id], id);
      assert IsOf(db, s, id);
    }
  }

  /** Whatever interleaves, a cluster row shows its highest-sequence snapshot, and is untouched while it has none. */
  lemma RowsShowTheNewestSnapshot(h: History, k: nat, id: Id)
    requires IsHistory(h) && k < |h| && id in h[k].clusters
    ensures var (db, row) := (h[k], h[k].clusters[id]);
            && ((exists s :: IsOf(db, s, id)) ==> exists s :: Newest(db, s, id))
            && (forall s :: Newest(db, s, id) ==> Shows(row, db.snapshots[s].reading))
            && ((forall s :: !IsOf(db, s, id)) ==> row.latestSequence == 0 && row.latestTelemetryAt.None?)
  {
    hide *;
    StateIsSound(h, k);
    Parts(h[k]);
    ProjectedRowShows(h[k], id);
  }

  predicate SameTelemetry(a: Cluster, b: Cluster) {
    a.currentSoc == b.currentSoc && a.latestSequence == b.latestSequence && a.latestTelemetryAt == b.latestTelemetryAt
  }

  /** Without a snapshot a cluster still has the state of charge it was created with. */
  lemma RowsStartWithInitialValues(h: History, i: nat, k: nat, id: Id)
    requires IsHistory(h) && i < k < |h| && id !in h[i].clusters && id in h[i + 1].clusters
    requires forall s :: !IsOf(h[k], s, id)
    ensures id in h[k].clusters && SameTelemetry(h[k].clusters[id], h[i + 1].clusters[id])
    ensures exists input :: Sites.CreateCluster(input) == Ok(h[i + 1].clusters[id]) && h[k].clusters[id].currentSoc == input.initialSoc
  {
    hide *;
    StepAt(h, i);
    StepParts(h[i], h[i + 1]);
    FollowsAt(h, i + 1, k);
    FollowParts(h[i + 1], h[k]);
    StateIsSound(h, k);
    Parts(h[k]);
    SameSocWhileUnread(h[i], h[i + 1], h[k], id);
  }

  lemma SameSocWhileUnread(a: Db, b: Db, c: Db, id: Id)
    requires ClustersStep(a.clusters, b.clusters) && ClustersFollow(b.clusters, c.clusters) && Projected(c.clusters, c.snapshots)
    requires id !in a.clusters && id in b.clusters && forall s :: !IsOf(c, s, id)
    ensures id in c.clusters && SameTelemetry(c.clusters[id], b.clusters[id])
    ensures exists input :: Sites.CreateCluster(input) == Ok(b.clusters[id]) && c.clusters[id].currentSoc == input.initialSoc
  {
    UnreadRow(c, id);
    hide Projected, LegalClusterWrite, IsOf, ClustersFollow;
    assert ClustersFollow(b.clusters, c.clusters);
    var input :| Sites.CreateCluster(input) == Ok(b.clusters[id]);
    CreatedUnread(input);
    SocStays(b.clusters, c.clusters, id);
  }

  lemma CreatedUnread(input: NewCluster)
    requires Sites.CreateCluster(input).Ok?
    ensures var row := Sites.CreateCluster(input).value; row.latestSequence == 0 && row.currentSoc == input.initialSoc
  {
  }

  lemma UnreadRow(c: Db, id: Id)
    requires Projected(c.clusters, c.snapshots) && forall s :: !IsOf(c, s, id)
    ensures id in c.clusters ==> c.clusters[id].latestSequence == 0
  {
    if id in c.clusters { ProjectedRowShows(c, id); }
  }

  lemma SocStays(b: map<Id, Cluster>, c: map<Id, Cluster>, id: Id)
    requires ClustersFollow(b, c) && id in b && b[id].latestSequence == 0 && (id in c ==> c[id].latestSequence == 0)
    ensures id in c && SameTelemetry(c[id], b[id])
  {
    assert Newer(b[id], c[id]);
  }

  /** A snapshot stored later has a higher sequence than every one its cluster had. */
  lemma SequencesIncrease(h: History, k: nat, s: Id, t: Id)
    requires IsHistory(h) && k + 1 < |h| && s in h[k + 1].snapshots && s !in h[k].snapshots && t in h[k].snapshots
    requires h[k + 1].snapshots[s].reading.clusterId == h[k].snapshots[t].reading.clusterId
    ensures h[k].snapshots[t].reading.sequence < h[k + 1].snapshots[s].reading.sequence
  {
    hide *;
    StepAt(h, k);
    StepParts(h[k], h[k + 1]);
    StateIsSound(h, k);
    Parts(h[k]);
    NewSequenceIsHigher(h[k], h[k + 1], s, t);
  }

  lemma NewSequenceIsHigher(a: Db, b: Db, s: Id, t: Id)
    requires SnapshotsStep(a.clusters, a.snapshots, b.snapshots) && Projected(a.clusters, a.snapshots)
    requires s in b.snapshots && s !in a.snapshots && t in a.snapshots
    requires b.snapshots[s].reading.clusterId == a.snapshots[t].reading.clusterId
    ensures a.snapshots[t].reading.sequence < b.snapshots[s].reading.sequence
  {
    var id := a.snapshots[t].reading.clusterId;
    assert ProjectedRow(a.clusters[id], id, a.snapshots);
  }

  // ----- Alarms -----

  /** At most one unresolved alarm for a cluster and kind of condition. */
  lemma ActiveAlarmsAreUnique(h: History, k: nat, a: Id, b: Id)
    requires IsHistory(h) && k < |h| && a in h[k].alarms && b in h[k].alarms
    requires var alarms := h[k].alarms;
             && alarms[a].clusterId == alarms[b].clusterId && alarms[a].kind == alarms[b].kind
             && !alarms[a].status.Resolved? && !alarms[b].status.Resolved?
    ensures a == b
  {
    hide *;
    StateIsSound(h, k);
    Parts(h[k]);
    ActiveAlarmIsUnique(h[k].alarms, a, b);
  }

  lemma ActiveAlarmIsUnique(alarms: map<Id, Alarm>, a: Id, b: Id)
    requires AlarmsUnique(alarms) && a in alarms && b in alarms
    requires alarms[a].clusterId == alarms[b].clusterId && alarms[a].kind == alarms[b].kind
    requires !alarms[a].status.Resolved? && !alarms[b].status.Resolved?
    ensures a == b
  {
  }

  /** A resolved alarm is never written again. */
  lemma ResolvedAlarmsStay(h: History, i: nat, k: nat, id: Id)
    requires IsHistory(h) && i <= k < |h| && id in h[i].alarms && h[i].alarms[id].status.Resolved?
    ensures id in h[k].alarms && h[k].alarms[id] == h[i].alarms[id]
  {
    hide *;
    FollowsAt(h, i, k);
    FollowParts(h[i], h[k]);
    ResolvedStays(h[i].alarms, h[k].alarms, id);
  }

  lemma ResolvedStays(a: map<Id, Alarm>, b: map<Id, Alarm>, id: Id)
    requires AlarmsFollow(a, b) && id in a && a[id].status.Resolved?
    ensures id in b && b[id] == a[id]
  {
  }

  ghost predicate Unresolved(db: Db, a: Id, fingerprint: string) {
    a in db.alarms && db.alarms[a].fingerprint == fingerprint && !db.alarms[a].status.Resolved?
  }

  ghost predicate ExactlyOneUnresolved(db: Db, fingerprint: string) {
    && (exists a :: Unresolved(db, a, fingerprint))
    && (forall a, b :: Unresolved(db, a, fingerprint) && Unresolved(db, b, fingerprint) ==> a == b)
  }

  /** Under fresh identifiers each row is raised unless one like it is already active. */
  lemma {:induction false} EachRowIsActive(alarms: map<Id, Alarm>, ids: seq<Id>, rows: seq<Alarm>, i: nat)
    requires |ids| == |rows| && i < |rows| && Distinct(ids) && (forall x :: x in ids ==> x !in alarms)
    requires forall x :: 0 <= x < |rows| ==> rows[x].status.Open?
    ensures ActiveAlarm(RaiseAlarms(alarms, ids, rows), rows[i].fingerprint)
  {
    var n := |ids| - 1;
    var before := RaiseAlarms(alarms, ids[..n], rows[..n]);
    RaisedKeys(alarms, ids[..n], rows[..n]);
    LastIsFresh(ids);
    hide ActiveAlarm;
    if i < n {
      EachRowIsActive(alarms, ids[..n], rows[..n], i);
      StaysActive(before, ids[n], rows[n], rows[i].fingerprint);
    } else if !ActiveAlarm(before, rows[n].fingerprint) {
      BecomesActive(before, ids[n], rows[n]);
    }
  }

  lemma LastIsFresh(ids: seq<Id>)
    requires ids != [] && Distinct(ids)
    ensures ids[|ids| - 1] !in ids[..|ids| - 1] && forall x :: x in ids[..|ids| - 1] ==> x in ids
  {
  }

  lemma StaysActive(before: map<Id, Alarm>, id: Id, row: Alarm, fingerprint: string)
    requires ActiveAlarm(before, fingerprint) && id !in before
    ensures ActiveAlarm(before[id := row], fingerprint)
  {
    var a :| a in before && before[a].fingerprint == fingerprint && !before[a].status.Resolved?;
    assert a in before[id := row] && before[id := row][a] == before[a];
  }

  lemma BecomesActive(before: map<Id, Alarm>, id: Id, row: Alarm)
    requires row.status.Open?
    ensures ActiveAlarm(before[id := row], row.fingerprint)
  {
    assert id in before[id := row];
  }

  lemma {:induction false} RaisedKeys(alarms: map<Id, Alarm>, ids: seq<Id>, rows: seq<Alarm>)
    requires |ids| == |rows|
    ensures RaiseAlarms(alarms, ids, rows).Keys <= alarms.Keys + (set x | x in ids)
  {
    if ids != [] {
      RaisedKeys(alarms, ids[..|ids| - 1], rows[..|ids| - 1]);
      assert ids == ids[..|ids| - 1] + [ids[|ids| - 1]];
    }
  }

  /**
   * After an accepted reading there is exactly one unresolved alarm for low charge if the
   * charge is low, one for high charge if it is high, and one for heat if it is hot.
   */
  lemma AcceptedReadingsRaiseAlarms(h: History, c: Call)
    requires IsHistory(h) && c.RecordTelemetry? && TryRecord(h, c).Some?
    requires Distinct(c.alarmIds) && forall x :: x in c.alarmIds ==> x !in Last(h).alarms
    ensures var (r, t, db) := (c.reading, c.thresholds, TryRecord(h, c).value);
            && (r.soc <= t.lowSoc ==> ExactlyOneUnresolved(db, r.clusterId + ":soc_low"))
            && (r.soc >= t.highSoc ==> ExactlyOneUnresolved(db, r.clusterId + ":soc_high"))
            && (r.temperatureMilliC >= t.highTemperatureMilliC ==> ExactlyOneUnresolved(db, r.clusterId + ":temperature_high"))
  {
    hide *;
    var conditions := Conditions(Snapshot(c.reading, c.now), c.thresholds);
    ReadingIsSound(h, c);
    ConditionsAreReported(Snapshot(c.reading, c.now), c.thresholds);
    forall i | 0 <= i < |conditions| ensures ExactlyOneUnresolved(TryRecord(h, c).value, conditions[i].fingerprint) {
      ConditionRaisesAlarm(h, c, i);
    }
    ReportedFingerprints(conditions, c.reading, c.thresholds);
  }

  /** The fingerprints of what must be reported are among those of the conditions. */
  lemma ReportedFingerprints(conditions: seq<Condition>, r: Reading, t: Thresholds)
    requires Reports(conditions, r, t)
    ensures r.soc <= t.lowSoc ==> exists i :: 0 <= i < |conditions| && conditions[i].fingerprint == r.clusterId + ":soc_low"
    ensures r.soc >= t.highSoc ==> exists i :: 0 <= i < |conditions| && conditions[i].fingerprint == r.clusterId + ":soc_high"
    ensures r.temperatureMilliC >= t.highTemperatureMilliC ==>
              exists i :: 0 <= i < |conditions| && conditions[i].fingerprint == r.clusterId + ":temperature_high"
  {
  }

  lemma ReadingIsSound(h: History, c: Call)
    requires c.RecordTelemetry? && TryRecord(h, c).Some?
    ensures Acceptable(c.reading, c.now) && Thresholded(c.thresholds)
    ensures |c.alarmIds| == |Conditions(Snapshot(c.reading, c.now), c.thresholds)|
  {
    SnapshotIff(c.reading, c.now);
    ValidateIff(c.thresholds);
    hide Acceptable, Thresholded, NewSnapshot, Conditions, TelemetryTx, AlarmRows, Thresholds.Validate, Cluster.ApplyTelemetry;
  }

  /** Under fresh identifiers each condition of an accepted reading has exactly one unresolved alarm. */
  lemma ConditionRaisesAlarm(h: History, c: Call, i: nat)
    requires IsHistory(h) && c.RecordTelemetry? && TryRecord(h, c).Some?
    requires Distinct(c.alarmIds) && forall x :: x in c.alarmIds ==> x !in Last(h).alarms
    requires i < |Conditions(Snapshot(c.reading, c.now), c.thresholds)|
    ensures ExactlyOneUnresolved(TryRecord(h, c).value, Conditions(Snapshot(c.reading, c.now), c.thresholds)[i].fingerprint)
  {
    hide *;
    HistoryIsSound(h);
    RecordKeeps(h, c);
    var rows := ReadingRaises(h, c);
    assert rows[i].fingerprint == Conditions(Snapshot(c.reading, c.now), c.thresholds)[i].fingerprint;
    EachRowIsActive(Last(h).alarms, c.alarmIds, rows, i);
    GoodStepSound(Last(h), TryRecord(h, c).value);
    Parts(TryRecord(h, c).value);
    OneUnresolved(TryRecord(h, c).value, rows[i].fingerprint);
  }

  /** An alarm as a reading raises it: of the cluster and its site, open, and for a bound the reading crosses. */
  predicate RaisedBy(alarm: Alarm, r: Reading, t: Thresholds, siteId: Id) {
    && alarm == Alarm(siteId, r.clusterId, alarm.kind, alarm.severity, Open, r.clusterId + ":" + alarm.kind, "", "", 1)
    && if alarm.kind == "soc_low" then alarm.severity.Critical? && r.soc <= t.lowSoc
       else if alarm.kind == "soc_high" then alarm.severity.Warning? && r.soc >= t.highSoc
       else alarm.kind == "temperature_high" && r.temperatureMilliC >= t.highTemperatureMilliC
            && (alarm.severity.Critical? <==> r.temperatureMilliC >= t.criticalTemperatureMilliC)
  }

  /**
   * What an accepted reading writes: its snapshot, the telemetry columns of the current
   * cluster row, and new alarms only for bounds it crosses, so none if it crosses none.
   */
  lemma AcceptedReadingsAreStored(h: History, c: Call)
    requires IsHistory(h) && c.RecordTelemetry? && TryRecord(h, c).Some?
    ensures var (a, b, r, id) := (Last(h), Exec(h, c), c.reading, c.reading.clusterId);
            && Acceptable(r, c.now) && Thresholded(c.thresholds) && id in a.clusters && a.clusters[id].latestSequence < r.sequence
            && c.snapshotId !in a.snapshots
            && b == a.(snapshots := a.snapshots[c.snapshotId := Snapshot(r, c.now)], alarms := b.alarms,
                       clusters := a.clusters[id := a.clusters[id].(currentSoc := r.soc, latestSequence := r.sequence,
                                                                    latestTelemetryAt := Some(r.observedAt), version := a.clusters[id].version + 1)])
            && Grows(a.alarms, b.alarms)
            && (forall x :: x in b.alarms && x !in a.alarms ==> RaisedBy(b.alarms[x], r, c.thresholds, a.clusters[id].siteId))
            && (HowMany(r, c.thresholds) == 0 ==> b == a.(snapshots := b.snapshots, clusters := b.clusters))
  {
    hide *;
    var (a, id, snapshot) := (Last(h), c.reading.clusterId, Snapshot(c.reading, c.now));
    HistoryIsSound(h);
    ReadingIsSound(h, c);
    ReadingMeetsReadRow(h, c);
    ReadingIsPrepared(h, c);
    TryIs(h, c);
    Committed(a, Try(h, c));
    ConditionsAreReported(snapshot, c.thresholds);
    var conditions := Conditions(snapshot, c.thresholds);
    var rows := AlarmRows(a.clusters[id].siteId, id, conditions);
    RowsAreRaised(a.clusters[id].siteId, conditions, c.reading, c.thresholds);
    TelemetryWrites(a, c.snapshotId, snapshot, c.reading.soc, a.clusters[id].version, c.alarmIds, rows, c.audited);
    AdvancesTo(a.clusters[id], snapshot);
    CommittedIsNewer(a, c.snapshotId, snapshot, a.clusters[id].version, c.alarmIds, rows, c.audited);
    RaisesOnly(a.alarms, c.alarmIds, rows);
  }

  lemma Committed(a: Db, tx: Option<Db>)
    ensures tx.Some? ==> Commit(a, tx) == tx.value
  {
  }

  lemma AdvancesTo(row: Cluster, s: Snapshot)
    ensures Advance(row, s, s.reading.soc) == row.(currentSoc := s.reading.soc, latestSequence := s.reading.sequence,
                                                   latestTelemetryAt := Some(s.reading.observedAt), version := row.version + 1)
  {
  }

  lemma CommittedIsNewer(a: Db, id: Id, s: Snapshot, version: int, alarmIds: seq<Id>, alarms: seq<Alarm>, audited: bool)
    requires |alarmIds| == |alarms| && TelemetryTx(a, id, s, s.reading.soc, version, alarmIds, alarms, audited).Some?
    ensures s.reading.clusterId in a.clusters && a.clusters[s.reading.clusterId].latestSequence < s.reading.sequence
  {
    hide RaiseAlarms, SequenceTaken;
  }

  lemma RowsAreRaised(siteId: Id, conditions: seq<Condition>, r: Reading, t: Thresholds)
    requires Reports(conditions, r, t) && Thresholded(t)
    ensures var rows := AlarmRows(siteId, r.clusterId, conditions);
            |rows| == |conditions| && forall i :: 0 <= i < |rows| ==> RaisedBy(rows[i], r, t, siteId)
  {
    hide RaisedBy, Reports, Thresholded;
    forall i | 0 <= i < |conditions| ensures RaisedBy(AlarmRows(siteId, r.clusterId, conditions)[i], r, t, siteId) {
      assert conditions[i] in conditions;
      RowIsRaised(siteId, conditions, conditions[i], r, t);
    }
  }

  lemma RowIsRaised(siteId: Id, conditions: seq<Condition>, x: Condition, r: Reading, t: Thresholds)
    requires Reports(conditions, r, t) && Thresholded(t) && x in conditions
    ensures RaisedBy(Alarm(siteId, r.clusterId, x.kind, x.severity, Open, x.fingerprint, "", "", 1), r, t, siteId)
  {
    NamedAs(r.clusterId);
    assert "soc_low"[4] != "soc_high"[4] && "soc_low"[0] != "temperature_high"[0] && "soc_high"[0] != "temperature_high"[0];
  }

  lemma {:induction false} RaisesOnly(alarms: map<Id, Alarm>, ids: seq<Id>, rows: seq<Alarm>)
    requires |ids| == |rows|
    ensures Grows(alarms, RaiseAlarms(alarms, ids, rows)) && (rows == [] ==> RaiseAlarms(alarms, ids, rows) == alarms)
    ensures forall x :: x in RaiseAlarms(alarms, ids, rows) && x !in alarms ==> RaiseAlarms(alarms, ids, rows)[x] in rows
  {
    if ids != [] {
      var n := |ids| - 1;
      RaisesOnly(alarms, ids[..n], rows[..n]);
      assert rows == rows[..n] + [rows[n]];
      hide ActiveAlarm;
    }
  }

  lemma OneUnresolved(db: Db, fingerprint: string)
    requires AlarmsUnique(db.alarms) && ActiveAlarm(db.alarms, fingerprint)
    ensures ExactlyOneUnresolved(db, fingerprint)
  {
    var a :| a in db.alarms && db.alarms[a].fingerprint == fingerprint && !db.alarms[a].status.Resolved?;
    assert Unresolved(db, a, fingerprint);
  }

  lemma ReadingRaises(h: History, c: Call) returns (rows: seq<Alarm>)
    requires c.RecordTelemetry? && TryRecord(h, c).Some?
    ensures var conditions := Conditions(Snapshot(c.reading, c.now), c.thresholds);
            && |rows| == |c.alarmIds| == |conditions| && (forall x :: 0 <= x < |rows| ==> rows[x].status.Open?)
            && (forall x :: 0 <= x < |rows| ==> rows[x].fingerprint == conditions[x].fingerprint)
    ensures TryRecord(h, c).value.alarms == RaiseAlarms(Last(h).alarms, c.alarmIds, rows)
  {
    ReadingIsPrepared(h, c);
    hide TryRecord, Conditions, RaiseAlarms, TelemetryTx;
    var row := h[c.at].clusters[c.reading.clusterId];
    rows := AlarmRows(row.siteId, c.reading.clusterId, Conditions(Snapshot(c.reading, c.now), c.thresholds));
    TelemetryWrites(Last(h), c.snapshotId, Snapshot(c.reading, c.now), c.reading.soc, row.version, c.alarmIds, rows, c.audited);
  }
}
