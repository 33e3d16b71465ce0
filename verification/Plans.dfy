/** Dispatch plans and capacity reservations as values (internal/dispatch/plan.go, reservation.go). */
module Plans {
  import opened Prelude
  import opened Clock
  import opened Sites
  import opened TimeEncoding

  // The wired life cycle; running, completed, failed and cancelled plans have no writer in the services.
  datatype PlanStatus = Draft | Submitted | Approved | Dispatched

  datatype Plan = Plan(
    siteId: Id, direction: Direction, requestedKW: int, targetKWh: int, window: Window,
    status: PlanStatus, createdBy: Id, approvedBy: Option<Id>, approvedAt: Option<Instant>, version: int)
  {
    function Submit(clusterCount: int, reservedKW: int): Result<Plan> {
      if !status.Draft? then Err(INVALID_TRANSITION)
      else if clusterCount <= 0 then Err(Fault(Conflict, "plan_has_no_clusters"))
      else if reservedKW != requestedKW then Err(Fault(Conflict, "reservation_power_mismatch"))
      else Ok(this.(status := Submitted, version := version + 1))
    }

    function Approve(actor: Id, expectedVersion: int, now: Instant): Result<Plan> {
      if version != expectedVersion then Err(VERSION_CONFLICT)
      else if !status.Submitted? then Err(INVALID_TRANSITION)
      else if actor == createdBy then Err(Fault(Forbidden, "four_eyes_required"))
      else Ok(this.(status := Approved, approvedBy := Some(actor), approvedAt := Some(now), version := version + 1))
    }

    function Dispatch(jobCount: int, reservationCount: int): Result<Plan> {
      if !status.Approved? then Err(INVALID_TRANSITION)
      else if jobCount == 0 || jobCount != reservationCount then Err(Fault(Conflict, "execution_job_mismatch"))
      else Ok(this.(status := Dispatched, version := version + 1))
    }

    /** The requested power held for the whole window carries at least the target energy. */
    predicate Deliverable() { targetKWh * HOUR <= requestedKW * window.Duration() }
  }

  const INVALID_TRANSITION := Fault(Conflict, "invalid_plan_transition")

  datatype NewPlan = NewPlan(
    siteId: Id, direction: Direction, requestedKW: int, targetKWh: int, startsAt: Instant, endsAt: Instant, createdBy: Id)

  /** Energy in kWh over whole minutes, rounded down. */
  function MaximumEnergy(requestedKW: int, duration: int): int
  {
    requestedKW * (duration / MINUTE) / 60
  }

  function CreatePlan(input: NewPlan, now: Instant): Result<Plan> {
    if Blank(input.siteId) || Blank(input.createdBy) then Err(Fault(Invalid, "missing_plan_owner"))
    else if input.requestedKW <= 0 || input.requestedKW > 10_000_000 then Err(Fault(Invalid, "invalid_requested_power"))
    else if input.targetKWh <= 0 || input.targetKWh > 100_000_000 then Err(Fault(Invalid, "invalid_target_energy"))
    else
      var window := NewWindow(input.startsAt, input.endsAt);
      if window.None? then Err(Fault(Invalid, "invalid_plan_window"))
      else if window.value.start + MINUTE < now then Err(Fault(Invalid, "plan_starts_in_past"))
      else
        var duration := window.value.Duration();
        if duration < MINUTE || duration > 7 * DAY then Err(Fault(Invalid, "invalid_plan_duration"))
        else
          var maximum := MaximumEnergy(input.requestedKW, duration);
          if maximum <= 0 || input.targetKWh > maximum then Err(Fault(Invalid, "target_energy_unreachable"))
          else Ok(Plan(input.siteId, input.direction, input.requestedKW, input.targetKWh, window.value,
                       Draft, input.createdBy, None, None, 1))
  }

  /** The integer energy check is the real one on whole-minute windows, and never looser on any window. */
  lemma EnergyCheckIsSound(requestedKW: int, targetKWh: int, duration: int)
    requires requestedKW > 0 && targetKWh > 0 && duration >= 0
    ensures targetKWh <= MaximumEnergy(requestedKW, duration) ==> targetKWh * HOUR <= requestedKW * duration
    ensures duration % MINUTE == 0 ==>
              (targetKWh <= MaximumEnergy(requestedKW, duration) <==> targetKWh * HOUR <= requestedKW * duration)
  {
    var minutes := duration / MINUTE;
    var energy := requestedKW * minutes;
    assert targetKWh <= energy / 60 <==> targetKWh * 60 <= energy;
    assert requestedKW * (minutes * MINUTE) == energy * MINUTE by { Regroup(requestedKW, minutes, MINUTE); }
    Grow(requestedKW, minutes * MINUTE, duration);
    assert targetKWh * HOUR == (targetKWh * 60) * MINUTE;
  }

  lemma Regroup(a: int, b: int, c: int)
    ensures a * (b * c) == a * b * c
  {
  }

  lemma Grow(a: int, b: int, c: int)
    requires a >= 0 && b <= c
    ensures a * b <= a * c
  {
  }

  lemma CreatedPlan(input: NewPlan, now: Instant)
    requires CreatePlan(input, now).Ok?
    ensures var plan := CreatePlan(input, now).value;
            plan.Deliverable() && PlanOk(plan) && plan.status.Draft?
  {
    var window := Window(input.startsAt, input.endsAt);
    EnergyCheckIsSound(input.requestedKW, input.targetKWh, window.Duration());
  }

  /**
   * What every stored plan satisfies. In the wired life cycle the version counts the
   * transitions, and an approver is recorded, different from the creator, from approval on.
   */
  ghost predicate PlanOk(plan: Plan) {
    && plan.requestedKW > 0
    && plan.window.start + MINUTE <= plan.window.end
    && plan.Deliverable()
    && match plan.status
       case Draft => plan.version == 1 && plan.approvedBy == None
       case Submitted => plan.version == 2 && plan.approvedBy == None
       case Approved => plan.version == 3 && plan.approvedBy.Some? && plan.approvedBy.value != plan.createdBy
       case Dispatched => plan.version == 4 && plan.approvedBy.Some? && plan.approvedBy.value != plan.createdBy
  }

  /** In the wired life cycle the version of a stored plan tells its status. */
  lemma VersionTellsStatus(plan: Plan)
    requires PlanOk(plan)
    ensures 1 <= plan.version <= 4
    ensures plan.version == match plan.status
                            case Draft => 1
                            case Submitted => 2
                            case Approved => 3
                            case Dispatched => 4
  {
  }

  ghost predicate LegalPlanWrite(before: Plan, after: Plan) {
    || (exists count, kw :: before.Submit(count, kw) == Ok(after))
    || (exists actor, expected, now: Instant :: before.Approve(actor, expected, now) == Ok(after))
    || (exists jobs, reservations :: before.Dispatch(jobs, reservations) == Ok(after))
  }

  lemma LegalPlanWriteKeeps(before: Plan, after: Plan)
    requires PlanOk(before) && LegalPlanWrite(before, after)
    ensures PlanOk(after) && after.version == before.version + 1
    ensures SamePlan(before, after)
  {
  }

  /** The columns that no transition changes. */
  predicate SamePlan(a: Plan, b: Plan) {
    && a.siteId == b.siteId && a.direction == b.direction && a.requestedKW == b.requestedKW
    && a.targetKWh == b.targetKWh && a.window == b.window && a.createdBy == b.createdBy
  }

  datatype ReservationStatus = Held | Consumed | Released

  datatype Reservation = Reservation(planId: Id, clusterId: Id, reservedKW: int, window: Window, status: ReservationStatus) {
    predicate Conflicts(other: Reservation) {
      && clusterId == other.clusterId
      && !status.Released? && !other.status.Released?
      && window.Overlaps(other.window)
    }
  }

  function NewReservation(planId: Id, clusterId: Id, powerKW: int, window: Window): Result<Reservation> {
    if Blank(planId) || Blank(clusterId) then Err(Fault(Invalid, "missing_reservation_owner"))
    else if powerKW <= 0 then Err(Fault(Invalid, "invalid_reservation_power"))
    else if window.start >= window.end then Err(Fault(Invalid, "invalid_reservation_window"))
    else Ok(Reservation(planId, clusterId, powerKW, window, Held))
  }

  /** A window of at least a minute is stored with its bounds in text order too. */
  lemma MinuteWindowsAreOrderedAsText(window: Window)
    requires window.FourDigitYears() && window.start + MINUTE <= window.end
    ensures SqlLess(window.start, window.end)
  {
    assert Seconds(window.start) != Seconds(window.end);
    ComparableOrder(window.start, window.end);
  }
}
