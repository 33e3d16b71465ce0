/** Sites and battery clusters as values (internal/site/site.go, internal/site/cluster.go). */
module Sites {
  import opened Prelude

  datatype SiteStatus = Commissioning | Active | Suspended | Retired

  datatype Site = Site(gridLimitKW: int, reservedKW: int, status: SiteStatus, version: int) {
    function AvailableKW(): int {
      if gridLimitKW - reservedKW < 0 then 0 else gridLimitKW - reservedKW
    }

    predicate CanAcceptPlans() { status.Active? }

    function Reserve(powerKW: int): Result<Site> {
      if !CanAcceptPlans() then Err(Fault(Conflict, "site_not_active"))
      else if powerKW <= 0 then Err(Fault(Invalid, "invalid_reservation_power"))
      else if powerKW > AvailableKW() then Err(Fault(Conflict, "grid_capacity_exceeded"))
      else Ok(this.(reservedKW := reservedKW + powerKW, version := version + 1))
    }

    function Transition(next: SiteStatus): Result<Site> {
      if !Allowed(status, next) then Err(Fault(Conflict, "invalid_site_transition"))
      else if next.Retired? && reservedKW != 0 then Err(Fault(Conflict, "site_has_reservations"))
      else Ok(this.(status := next, version := version + 1))
    }
  }

  predicate Allowed(from: SiteStatus, to: SiteStatus) {
    match from
    case Commissioning => to.Active? || to.Retired?
    case Active => to.Suspended? || to.Retired?
    case Suspended => to.Active? || to.Retired?
    case Retired => false
  }

  function CreateSite(gridLimitKW: int): Result<Site> {
    if gridLimitKW < 10 || gridLimitKW > 10_000_000 then Err(Fault(Invalid, "invalid_grid_limit"))
    else Ok(Site(gridLimitKW, 0, Commissioning, 1))
  }

  datatype ClusterStatus = Available | Reserved | Running | Degraded | Offline

  datatype Direction = Charge | Discharge

  datatype Cluster = Cluster(
    siteId: Id, ratedPowerKW: int, capacityKWh: int, minSoc: int, maxSoc: int,
    currentSoc: int, status: ClusterStatus, latestSequence: int, latestTelemetryAt: Option<Instant>, version: int)
  {
    function Eligible(direction: Direction, requestedKW: int): Option<Fault> {
      if !status.Available? then Some(Fault(Conflict, "cluster_unavailable"))
      else if requestedKW <= 0 || requestedKW > ratedPowerKW then Some(Fault(Conflict, "cluster_power_exceeded"))
      else if direction.Charge? && currentSoc >= maxSoc then Some(Fault(Conflict, "cluster_soc_high"))
      else if direction.Discharge? && currentSoc <= minSoc then Some(Fault(Conflict, "cluster_soc_low"))
      else None
    }

    function Reserve(): Result<Cluster> {
      if !status.Available? then Err(Fault(Conflict, "cluster_unavailable"))
      else Ok(this.(status := Reserved, version := version + 1))
    }

    function ApplyTelemetry(sequence: int, soc: int, observedAt: Instant, now: Instant): Result<Cluster> {
      if sequence <= latestSequence then Err(Fault(Conflict, "telemetry_sequence_conflict"))
      else if observedAt > now + 2 * MINUTE || observedAt + DAY < now then Err(Fault(Invalid, "telemetry_time_outside_window"))
      else if soc < 0 || soc > 100 then Err(Fault(Invalid, "invalid_soc"))
      else Ok(this.(latestSequence := sequence, currentSoc := soc, latestTelemetryAt := Some(observedAt), version := version + 1))
    }

    function MarkDegraded(): Cluster { this.(status := Degraded, version := version + 1) }

    function Recover(): Result<Cluster> {
      if !status.Degraded? && !status.Offline? then Err(Fault(Conflict, "cluster_not_degraded"))
      else if currentSoc < minSoc || currentSoc > maxSoc then Err(Fault(Conflict, "soc_not_recovered"))
      else Ok(this.(status := Available, version := version + 1))
    }
  }

  /** The columns that no transition changes. */
  predicate SameCluster(a: Cluster, b: Cluster) {
    && a.siteId == b.siteId && a.ratedPowerKW == b.ratedPowerKW && a.capacityKWh == b.capacityKWh
    && a.minSoc == b.minSoc && a.maxSoc == b.maxSoc
  }

  datatype NewCluster = NewCluster(siteId: Id, ratedPowerKW: int, capacityKWh: int, minSoc: int, maxSoc: int, initialSoc: int)

  function CreateCluster(input: NewCluster): Result<Cluster> {
    if Blank(input.siteId) then Err(Fault(Invalid, "missing_site"))
    else if input.ratedPowerKW < 1 || input.ratedPowerKW > 2_000_000 then Err(Fault(Invalid, "invalid_rated_power"))
    else if input.capacityKWh < 1 || input.capacityKWh > 20_000_000 then Err(Fault(Invalid, "invalid_capacity"))
    else if input.minSoc < 0 || input.maxSoc > 100 || input.minSoc >= input.maxSoc then Err(Fault(Invalid, "invalid_soc_window"))
    else if input.initialSoc < input.minSoc || input.initialSoc > input.maxSoc then Err(Fault(Invalid, "initial_soc_outside_window"))
    else Ok(Cluster(input.siteId, input.ratedPowerKW, input.capacityKWh, input.minSoc, input.maxSoc,
                    input.initialSoc, Available, 0, None, 1))
  }

  /** A write to a site row that the domain allows on the row's value. */
  ghost predicate LegalSiteWrite(before: Site, after: Site) {
    || (exists powerKW :: before.Reserve(powerKW) == Ok(after))
    || (exists next :: before.Transition(next) == Ok(after))
  }

  /** A write to a cluster row that the domain allows on the row's value. */
  ghost predicate LegalClusterWrite(before: Cluster, after: Cluster) {
    || before.Reserve() == Ok(after)
    || after == before.MarkDegraded()
    || before.Recover() == Ok(after)
    || (exists sequence, soc, observedAt: Instant, now: Instant :: before.ApplyTelemetry(sequence, soc, observedAt, now) == Ok(after))
  }
}
