/**
 * Rows inserted one statement at a time, each against the tables the previous ones left,
 * add up to one bulk change guarded by one bulk condition.
 */
module Batches {
  import opened Prelude
  import opened Sites
  import opened Plans
  import opened Jobs
  import opened Tables

  function InsertRow(db: Db, id: Id, row: Reservation): Option<Db> {
    if !RowFits(db, id, row) then None
    else Some(db.(reservations := db.reservations[id := row],
                  clusters := db.clusters[row.clusterId := Taken(db.clusters[row.clusterId])]))
  }

  function InsertRows(db: Db, ids: seq<Id>, rows: seq<Reservation>): Option<Db>
    requires |ids| == |rows|
  {
    if ids == [] then Some(db)
    else
      var n := |ids| - 1;
      var before := InsertRows(db, ids[..n], rows[..n]);
      if before.None? then None else InsertRow(before.value, ids[n], rows[n])
  }

  lemma PairsAfter(reservations: map<Id, Reservation>, ids: seq<Id>, rows: seq<Reservation>, planId: Id, clusterId: Id)
    requires |ids| == |rows| && Distinct(ids) && forall i :: 0 <= i < |ids| ==> ids[i] !in reservations
    ensures PairTaken(reservations + Zip(ids, rows), planId, clusterId) <==>
              PairTaken(reservations, planId, clusterId)
              || exists i :: 0 <= i < |rows| && rows[i].planId == planId && rows[i].clusterId == clusterId
  {
    var all, added := reservations + Zip(ids, rows), Zip(ids, rows);
    if PairTaken(reservations, planId, clusterId) {
      var id :| id in reservations && reservations[id].planId == planId && reservations[id].clusterId == clusterId;
      assert id !in added && all[id] == reservations[id];
    }
    if i :| 0 <= i < |rows| && rows[i].planId == planId && rows[i].clusterId == clusterId {
      assert ids[i] in added && all[ids[i]] == rows[i];
    }
  }

  lemma FitsAfter(db: Db, ids: seq<Id>, rows: seq<Reservation>, id: Id, row: Reservation)
    requires |ids| == |rows| && AllFit(db, ids, rows)
    ensures RowFits(Hold(db, ids, rows), id, row) <==>
              RowFits(db, id, row) && id !in ids && row.clusterId !in ClustersOf(rows)
  {
    PairsAfter(db.reservations, ids, rows, row.planId, row.clusterId);
    forall i | 0 <= i < |rows| ensures rows[i].clusterId in ClustersOf(rows) { assert rows[i] in rows; }
  }

  lemma AllFitLast(db: Db, ids: seq<Id>, rows: seq<Reservation>)
    requires |ids| == |rows| > 0
    ensures var n := |ids| - 1;
            AllFit(db, ids, rows) <==>
              AllFit(db, ids[..n], rows[..n]) && RowFits(db, ids[n], rows[n])
              && ids[n] !in ids[..n] && rows[n].clusterId !in ClustersOf(rows[..n])
  {
    var n := |ids| - 1;
    forall i | 0 <= i < n ensures rows[i].clusterId in ClustersOf(rows[..n]) { assert rows[..n][i] in rows[..n]; }
    assert ids == ids[..n] + [ids[n]];
    if AllFit(db, ids, rows) {
      assert forall i :: 0 <= i < n ==> ids[..n][i] == ids[i] && ids[i] != ids[n];
      forall r | r in rows[..n] ensures r.clusterId != rows[n].clusterId {
        var i :| 0 <= i < n && rows[..n][i] == r;
      }
    }
  }

  lemma TakeLast(clusters: map<Id, Cluster>, rows: seq<Reservation>)
    requires |rows| > 0 && rows[|rows| - 1].clusterId in clusters
    requires rows[|rows| - 1].clusterId !in ClustersOf(rows[..|rows| - 1])
    ensures var before := TakeClusters(clusters, ClustersOf(rows[..|rows| - 1]));
            var c := rows[|rows| - 1].clusterId;
            c in before && TakeClusters(clusters, ClustersOf(rows)) == before[c := Taken(before[c])]
  {
    var last := rows[|rows| - 1];
    assert rows == rows[..|rows| - 1] + [last];
    assert ClustersOf(rows) == ClustersOf(rows[..|rows| - 1]) + {last.clusterId};
  }

  lemma HoldLast(db: Db, ids: seq<Id>, rows: seq<Reservation>)
    requires |ids| == |rows| > 0
    requires var n := |ids| - 1;
             AllFit(db, ids[..n], rows[..n]) && RowFits(db, ids[n], rows[n])
             && ids[n] !in ids[..n] && rows[n].clusterId !in ClustersOf(rows[..n])
    ensures var n := |ids| - 1;
            InsertRow(Hold(db, ids[..n], rows[..n]), ids[n], rows[n]) == Some(Hold(db, ids, rows))
  {
    var n := |ids| - 1;
    FitsAfter(db, ids[..n], rows[..n], ids[n], rows[n]);
    TakeLast(db.clusters, rows);
    ZipExtends(db.reservations, ids, rows);
  }

  /** Reservations one by one are reservations in bulk, and fail one by one exactly when they fail in bulk. */
  lemma {:induction false} InsertRowsInBulk(db: Db, ids: seq<Id>, rows: seq<Reservation>)
    requires |ids| == |rows|
    ensures InsertRows(db, ids, rows) == if AllFit(db, ids, rows) then Some(Hold(db, ids, rows)) else None
  {
    if ids == [] {
      assert Hold(db, ids, rows) == db;
    } else {
      var n := |ids| - 1;
      InsertRowsInBulk(db, ids[..n], rows[..n]);
      AllFitLast(db, ids, rows);
      if AllFit(db, ids[..n], rows[..n]) {
        FitsAfter(db, ids[..n], rows[..n], ids[n], rows[n]);
        if AllFit(db, ids, rows) {
          HoldLast(db, ids, rows);
        }
      }
    }
  }

  lemma InsertRowsNext(db: Db, ids: seq<Id>, rows: seq<Reservation>, i: nat, tx: Db)
    requires |ids| == |rows| && i < |ids| && InsertRows(db, ids[..i], rows[..i]) == Some(tx)
    ensures InsertRows(db, ids[..i + 1], rows[..i + 1]) == InsertRow(tx, ids[i], rows[i])
  {
    assert ids[..i + 1][..i] == ids[..i] && rows[..i + 1][..i] == rows[..i];
  }

  /** A batch that stops part way fails as a whole. */
  lemma {:induction false} InsertRowsStops(db: Db, ids: seq<Id>, rows: seq<Reservation>, i: nat)
    requires |ids| == |rows| && i <= |ids| && InsertRows(db, ids[..i], rows[..i]).None?
    ensures InsertRows(db, ids, rows).None?
    decreases |ids| - i
  {
    if i == |ids| {
      assert ids[..i] == ids && rows[..i] == rows;
    } else {
      assert ids[..i + 1][..i] == ids[..i] && rows[..i + 1][..i] == rows[..i];
      InsertRowsStops(db, ids, rows, i + 1);
    }
  }

  // ----- The same for jobs -----

  function InsertJob(db: Db, id: Id, job: Job): Option<Db> {
    if !JobFits(db, id, job) then None else Some(db.(jobs := db.jobs[id := job]))
  }

  function InsertJobs(db: Db, ids: seq<Id>, jobs: seq<Job>): Option<Db>
    requires |ids| == |jobs|
  {
    if ids == [] then Some(db)
    else
      var n := |ids| - 1;
      var before := InsertJobs(db, ids[..n], jobs[..n]);
      if before.None? then None else InsertJob(before.value, ids[n], jobs[n])
  }

  lemma JobPairsAfter(table: map<Id, Job>, ids: seq<Id>, jobs: seq<Job>, planId: Id, clusterId: Id)
    requires |ids| == |jobs| && Distinct(ids) && forall i :: 0 <= i < |ids| ==> ids[i] !in table
    ensures JobPairTaken(table + Zip(ids, jobs), planId, clusterId) <==>
              JobPairTaken(table, planId, clusterId)
              || exists i :: 0 <= i < |jobs| && jobs[i].planId == planId && jobs[i].clusterId == clusterId
  {
    var all, added := table + Zip(ids, jobs), Zip(ids, jobs);
    if JobPairTaken(table, planId, clusterId) {
      var id :| id in table && table[id].planId == planId && table[id].clusterId == clusterId;
      assert id !in added && all[id] == table[id];
    }
    if i :| 0 <= i < |jobs| && jobs[i].planId == planId && jobs[i].clusterId == clusterId {
      assert ids[i] in added && all[ids[i]] == jobs[i];
    }
  }

  predicate FreshPair(jobs: seq<Job>, job: Job) {
    forall i :: 0 <= i < |jobs| ==> jobs[i].planId != job.planId || jobs[i].clusterId != job.clusterId
  }

  lemma JobFitsAfter(db: Db, ids: seq<Id>, jobs: seq<Job>, id: Id, job: Job)
    requires |ids| == |jobs| && AllJobsFit(db, ids, jobs)
    ensures JobFits(AddJobs(db, ids, jobs), id, job) <==>
              JobFits(db, id, job) && id !in ids && FreshPair(jobs, job)
  {
    JobPairsAfter(db.jobs, ids, jobs, job.planId, job.clusterId);
  }

  lemma AllJobsFitLast(db: Db, ids: seq<Id>, jobs: seq<Job>)
    requires |ids| == |jobs| > 0
    ensures var n := |ids| - 1;
            AllJobsFit(db, ids, jobs) <==>
              AllJobsFit(db, ids[..n], jobs[..n]) && JobFits(db, ids[n], jobs[n])
              && ids[n] !in ids[..n] && FreshPair(jobs[..n], jobs[n])
  {
    var n := |ids| - 1;
    assert ids == ids[..n] + [ids[n]] && jobs == jobs[..n] + [jobs[n]];
    if AllJobsFit(db, ids, jobs) {
      assert forall i :: 0 <= i < n ==> ids[..n][i] == ids[i] && ids[i] != ids[n];
    }
  }

  lemma AddLast(db: Db, ids: seq<Id>, jobs: seq<Job>)
    requires |ids| == |jobs| > 0
    requires JobFits(AddJobs(db, ids[..|ids| - 1], jobs[..|ids| - 1]), ids[|ids| - 1], jobs[|ids| - 1])
    ensures var n := |ids| - 1;
            InsertJob(AddJobs(db, ids[..n], jobs[..n]), ids[n], jobs[n]) == Some(AddJobs(db, ids, jobs))
  {
    ZipExtends(db.jobs, ids, jobs);
  }

  /** Jobs one by one are jobs in bulk, and fail one by one exactly when they fail in bulk. */
  lemma {:induction false} InsertJobsInBulk(db: Db, ids: seq<Id>, jobs: seq<Job>)
    requires |ids| == |jobs|
    ensures InsertJobs(db, ids, jobs) == if AllJobsFit(db, ids, jobs) then Some(AddJobs(db, ids, jobs)) else None
  {
    if ids == [] {
      assert AddJobs(db, ids, jobs) == db;
    } else {
      var n := |ids| - 1;
      InsertJobsInBulk(db, ids[..n], jobs[..n]);
      AllJobsFitLast(db, ids, jobs);
      if AllJobsFit(db, ids[..n], jobs[..n]) {
        JobFitsAfter(db, ids[..n], jobs[..n], ids[n], jobs[n]);
        if AllJobsFit(db, ids, jobs) {
          AddLast(db, ids, jobs);
        }
      }
    }
  }

  lemma InsertJobsNext(db: Db, ids: seq<Id>, jobs: seq<Job>, i: nat, tx: Db)
    requires |ids| == |jobs| && i < |ids| && InsertJobs(db, ids[..i], jobs[..i]) == Some(tx)
    ensures InsertJobs(db, ids[..i + 1], jobs[..i + 1]) == InsertJob(tx, ids[i], jobs[i])
  {
    assert ids[..i + 1][..i] == ids[..i] && jobs[..i + 1][..i] == jobs[..i];
  }

  lemma {:induction false} InsertJobsStops(db: Db, ids: seq<Id>, jobs: seq<Job>, i: nat)
    requires |ids| == |jobs| && i <= |ids| && InsertJobs(db, ids[..i], jobs[..i]).None?
    ensures InsertJobs(db, ids, jobs).None?
    decreases |ids| - i
  {
    if i == |ids| {
      assert ids[..i] == ids && jobs[..i] == jobs;
    } else {
      assert ids[..i + 1][..i] == ids[..i] && jobs[..i + 1][..i] == jobs[..i];
      InsertJobsStops(db, ids, jobs, i + 1);
    }
  }
}
