/** Readings, alarm conditions and alarms as values (internal/telemetry/telemetry.go, internal/alarm/alarm.go). */
module Telemetry {
  import opened Prelude

  datatype Reading = Reading(
    clusterId: Id, sequence: int, observedAt: Instant, soc: int, powerKW: int, temperatureMilliC: int, energyDeltaWh: int)

  datatype Snapshot = Snapshot(reading: Reading, receivedAt: Instant)

  /** The zero time.Time: 1 January of year 1 (year 0 is a leap year). */
  const ZERO_TIME: Instant := 366 * DAY

  function NewSnapshot(input: Reading, receivedAt: Instant): Result<Snapshot> {
    if Blank(input.clusterId) then Err(Fault(Invalid, "missing_cluster"))
    else if input.sequence <= 0 then Err(Fault(Invalid, "invalid_sequence"))
    else if input.observedAt == ZERO_TIME then Err(Fault(Invalid, "missing_observed_at"))
    else if input.observedAt > receivedAt + 2 * MINUTE || input.observedAt + DAY < receivedAt
    then Err(Fault(Invalid, "observation_outside_window"))
    else if input.soc < 0 || input.soc > 100 then Err(Fault(Invalid, "invalid_soc"))
    else if input.powerKW < -10_000_000 || input.powerKW > 10_000_000 then Err(Fault(Invalid, "invalid_power"))
    else if input.temperatureMilliC < -50_000 || input.temperatureMilliC > 150_000 then Err(Fault(Invalid, "invalid_temperature"))
    else Ok(Snapshot(input, receivedAt))
  }

  /** A reading that may be stored when it is received at that time. */
  predicate Acceptable(r: Reading, receivedAt: Instant) {
    && !Blank(r.clusterId) && 1 <= r.sequence && r.observedAt != ZERO_TIME
    && receivedAt - DAY <= r.observedAt <= receivedAt + 2 * MINUTE
    && 0 <= r.soc <= 100 && -10_000_000 <= r.powerKW <= 10_000_000 && -50_000 <= r.temperatureMilliC <= 150_000
  }

  lemma SnapshotIff(r: Reading, receivedAt: Instant)
    ensures NewSnapshot(r, receivedAt) == Ok(Snapshot(r, receivedAt)) <==> Acceptable(r, receivedAt)
    ensures NewSnapshot(r, receivedAt).Ok? <==> Acceptable(r, receivedAt)
  {
    hide Blank;
  }

  datatype Thresholds = Thresholds(lowSoc: int, highSoc: int, highTemperatureMilliC: int, criticalTemperatureMilliC: int) {
    function Validate(): Option<Fault> {
      if lowSoc < 0 || lowSoc > 50 || highSoc < 50 || highSoc > 100 || lowSoc >= highSoc
      then Some(Fault(Invalid, "invalid_soc_thresholds"))
      else if highTemperatureMilliC < 20_000 || criticalTemperatureMilliC > 150_000 || highTemperatureMilliC >= criticalTemperatureMilliC
      then Some(Fault(Invalid, "invalid_temperature_thresholds"))
      else None
    }
  }

  datatype Severity = Warning | Critical

  datatype Condition = Condition(kind: string, severity: Severity, fingerprint: string)

  const SOC_LOW := "soc_low"
  const SOC_HIGH := "soc_high"
  const TEMPERATURE_HIGH := "temperature_high"

  function Fingerprint(clusterId: Id, kind: string): string { clusterId + ":" + kind }

  function When(holds: bool, clusterId: Id, kind: string, severity: Severity): seq<Condition> {
    if holds then [Condition(kind, severity, Fingerprint(clusterId, kind))] else []
  }

  /** The conditions a reading raises, as a whole. */
  function Conditions(snapshot: Snapshot, thresholds: Thresholds): seq<Condition> {
    var r := snapshot.reading;
    When(r.soc <= thresholds.lowSoc, r.clusterId, SOC_LOW, Critical)
    + When(r.soc >= thresholds.highSoc, r.clusterId, SOC_HIGH, Warning)
    + When(r.temperatureMilliC >= thresholds.highTemperatureMilliC, r.clusterId, TEMPERATURE_HIGH,
           if r.temperatureMilliC >= thresholds.criticalTemperatureMilliC then Critical else Warning)
  }

  predicate SocThresholds(t: Thresholds) { 0 <= t.lowSoc <= 50 <= t.highSoc <= 100 && t.lowSoc < t.highSoc }

  predicate Thresholded(t: Thresholds) {
    SocThresholds(t) && 20_000 <= t.highTemperatureMilliC < t.criticalTemperatureMilliC <= 150_000
  }

  function LowSoc(id: Id): Condition { Condition("soc_low", Critical, id + ":soc_low") }

  function HighSoc(id: Id): Condition { Condition("soc_high", Warning, id + ":soc_high") }

  function Hot(id: Id, severity: Severity): Condition { Condition("temperature_high", severity, id + ":temperature_high") }

  /** Exactly the conditions that hold of the reading: low and critical heat are critical, the others warnings. */
  predicate Reports(conditions: seq<Condition>, r: Reading, t: Thresholds) {
    && (LowSoc(r.clusterId) in conditions <==> r.soc <= t.lowSoc)
    && (HighSoc(r.clusterId) in conditions <==> r.soc >= t.highSoc)
    && (Hot(r.clusterId, Critical) in conditions <==> r.temperatureMilliC >= t.criticalTemperatureMilliC)
    && (Hot(r.clusterId, Warning) in conditions <==> t.highTemperatureMilliC <= r.temperatureMilliC < t.criticalTemperatureMilliC)
    && (forall x :: x in conditions ==> x in {LowSoc(r.clusterId), HighSoc(r.clusterId), Hot(r.clusterId, Critical), Hot(r.clusterId, Warning)})
    && Distinct(conditions)
  }

  function HowMany(r: Reading, t: Thresholds): nat {
    (if r.soc <= t.lowSoc then 1 else 0) + (if r.soc >= t.highSoc then 1 else 0)
    + (if r.temperatureMilliC >= t.highTemperatureMilliC then 1 else 0)
  }

  lemma ValidateIff(t: Thresholds)
    ensures t.Validate().None? <==> Thresholded(t)
    ensures t.Validate() == Some(Fault(Invalid, "invalid_soc_thresholds")) <==> !SocThresholds(t)
    ensures t.Validate() == Some(Fault(Invalid, "invalid_temperature_thresholds")) <==> SocThresholds(t) && !Thresholded(t)
  {
    assert "invalid_soc_thresholds"[8] != "invalid_temperature_thresholds"[8];
  }

  lemma ConditionsAreReported(snapshot: Snapshot, t: Thresholds)
    ensures |Conditions(snapshot, t)| == HowMany(snapshot.reading, t)
    ensures Thresholded(t) ==> Reports(Conditions(snapshot, t), snapshot.reading, t)
  {
    var (r, id) := (snapshot.reading, snapshot.reading.clusterId);
    assert SOC_LOW[0] != TEMPERATURE_HIGH[0] && SOC_HIGH[0] != TEMPERATURE_HIGH[0] && SOC_LOW[4] != SOC_HIGH[4];
    NamedAs(id);
    var severity := if r.temperatureMilliC >= t.criticalTemperatureMilliC then Critical else Warning;
    assert Conditions(snapshot, t) == (if r.soc <= t.lowSoc then [LowSoc(id)] else []) + (if r.soc >= t.highSoc then [HighSoc(id)] else [])
                                      + (if r.temperatureMilliC >= t.highTemperatureMilliC then [Hot(id, severity)] else []);
    hide Conditions;
    assert LowSoc(id) != HighSoc(id) && Hot(id, Critical) != Hot(id, Warning);
    assert forall x :: LowSoc(id) != Hot(id, x) && HighSoc(id) != Hot(id, x);
    hide LowSoc, HighSoc, Hot;
  }

  lemma NamedAs(id: Id)
    ensures Fingerprint(id, SOC_LOW) == id + ":soc_low" && Fingerprint(id, SOC_HIGH) == id + ":soc_high"
    ensures Fingerprint(id, TEMPERATURE_HIGH) == id + ":temperature_high"
  {
    assert ":" + SOC_LOW == ":soc_low" && ":" + SOC_HIGH == ":soc_high" && ":" + TEMPERATURE_HIGH == ":temperature_high";
    assert id + ":" + SOC_LOW == id + (":" + SOC_LOW);
    assert id + ":" + SOC_HIGH == id + (":" + SOC_HIGH);
    assert id + ":" + TEMPERATURE_HIGH == id + (":" + TEMPERATURE_HIGH);
  }

  /** The conditions in the order the source appends them. */
  method Evaluate(snapshot: Snapshot, thresholds: Thresholds) returns (outcome: Result<seq<Condition>>)
    ensures outcome.Ok? <==> Thresholded(thresholds)
    ensures outcome == Err(Fault(Invalid, "invalid_soc_thresholds")) <==> !SocThresholds(thresholds)
    ensures outcome == Err(Fault(Invalid, "invalid_temperature_thresholds")) <==> SocThresholds(thresholds) && !Thresholded(thresholds)
    ensures outcome.Ok? ==> Reports(outcome.value, snapshot.reading, thresholds)
    ensures outcome == match thresholds.Validate()
                       case Some(fault) => Err(fault)
                       case None => Ok(Conditions(snapshot, thresholds))
  {
    hide Reports, Thresholded, SocThresholds;
    ValidateIff(thresholds);
    ConditionsAreReported(snapshot, thresholds);
    var invalid := thresholds.Validate();
    if invalid.Some? {
      return Err(invalid.value);
    }
    var r := snapshot.reading;
    var conditions := [];
    if r.soc <= thresholds.lowSoc {
      conditions := conditions + [Condition(SOC_LOW, Critical, Fingerprint(r.clusterId, SOC_LOW))];
    }
    if r.soc >= thresholds.highSoc {
      conditions := conditions + [Condition(SOC_HIGH, Warning, Fingerprint(r.clusterId, SOC_HIGH))];
    }
    if r.temperatureMilliC >= thresholds.criticalTemperatureMilliC {
      conditions := conditions + [Condition(TEMPERATURE_HIGH, Critical, Fingerprint(r.clusterId, TEMPERATURE_HIGH))];
    } else if r.temperatureMilliC >= thresholds.highTemperatureMilliC {
      conditions := conditions + [Condition(TEMPERATURE_HIGH, Warning, Fingerprint(r.clusterId, TEMPERATURE_HIGH))];
    }
    assert conditions == Conditions(snapshot, thresholds);
    return Ok(conditions);
  }

  /** Under valid thresholds no two conditions of one reading share a fingerprint; a reading is never low and high at once. */
  lemma ConditionsAreDistinct(snapshot: Snapshot, thresholds: Thresholds)
    requires thresholds.Validate().None?
    ensures var cs := Conditions(snapshot, thresholds);
            && |cs| <= 2
            && (forall i :: 0 <= i < |cs| ==> cs[i].fingerprint == Fingerprint(snapshot.reading.clusterId, cs[i].kind))
            && (forall i, j :: 0 <= i < j < |cs| ==> cs[i].fingerprint != cs[j].fingerprint)
  {
    var id := snapshot.reading.clusterId;
    assert SOC_LOW[0] != TEMPERATURE_HIGH[0] && SOC_HIGH[0] != TEMPERATURE_HIGH[0];
    FingerprintsAreInjective(id, SOC_LOW, id, TEMPERATURE_HIGH);
    FingerprintsAreInjective(id, SOC_HIGH, id, TEMPERATURE_HIGH);
  }

  /** A fingerprint identifies its cluster and kind, even when cluster identifiers contain colons. */
  lemma FingerprintsAreInjective(c1: Id, k1: string, c2: Id, k2: string)
    requires ':' !in k1 && ':' !in k2
    ensures Fingerprint(c1, k1) == Fingerprint(c2, k2) <==> c1 == c2 && k1 == k2
  {
    var (a, b) := (Fingerprint(c1, k1), Fingerprint(c2, k2));
    assert a[|c1|] == ':' && b[|c2|] == ':';
    assert forall i :: |c1| < i < |a| ==> a[i] == k1[i - |c1| - 1];
    assert forall i :: |c2| < i < |b| ==> b[i] == k2[i - |c2| - 1];
    if a == b {
      assert a[|c2|] == ':' && b[|c1|] == ':';
      assert |c1| == |c2|;
      assert a[..|c1|] == c1 && b[..|c2|] == c2;
      assert a[|c1| + 1..] == k1 && b[|c2| + 1..] == k2;
    }
  }

  datatype AlarmStatus = Open | Acknowledged | Resolved

  datatype Alarm = Alarm(
    siteId: Id, clusterId: Id, kind: string, severity: Severity, status: AlarmStatus, fingerprint: string,
    acknowledgedBy: Id, resolvedBy: Id, version: int)
  {
    function Acknowledge(actor: Id, expectedVersion: int): Result<Alarm> {
      if version != expectedVersion then Err(VERSION_CONFLICT)
      else if !status.Open? then Err(Fault(Conflict, "invalid_alarm_transition"))
      else if Blank(actor) then Err(Fault(Invalid, "actor_required"))
      else Ok(this.(status := Acknowledged, acknowledgedBy := actor, version := version + 1))
    }

    function Resolve(actor: Id, expectedVersion: int, recovered: bool): Result<Alarm> {
      if version != expectedVersion then Err(VERSION_CONFLICT)
      else if !status.Acknowledged? then Err(Fault(Conflict, "invalid_alarm_transition"))
      else if !recovered then Err(Fault(Conflict, "condition_not_recovered"))
      else if Blank(actor) then Err(Fault(Invalid, "actor_required"))
      else Ok(this.(status := Resolved, resolvedBy := actor, version := version + 1))
    }
  }

  function CreateAlarm(siteId: Id, clusterId: Id, condition: Condition): Result<Alarm> {
    if Blank(siteId) || Blank(clusterId) then Err(Fault(Invalid, "missing_alarm_owner"))
    else if Blank(condition.kind) || Blank(condition.fingerprint) then Err(Fault(Invalid, "invalid_alarm_identity"))
    else Ok(Alarm(siteId, clusterId, condition.kind, condition.severity, Open, condition.fingerprint, "", "", 1))
  }

  ghost predicate LegalAlarmWrite(before: Alarm, after: Alarm) {
    || (exists actor, expected :: before.Acknowledge(actor, expected) == Ok(after))
    || (exists actor, expected, recovered :: before.Resolve(actor, expected, recovered) == Ok(after))
  }

  lemma LegalAlarmWriteShape(before: Alarm, after: Alarm)
    requires LegalAlarmWrite(before, after)
    ensures after.version == before.version + 1 && !before.status.Resolved?
    ensures after.fingerprint == before.fingerprint && after.clusterId == before.clusterId && after.kind == before.kind
    ensures before.status.Acknowledged? ==> after.status.Resolved? && after.acknowledgedBy == before.acknowledgedBy
    ensures before.status.Open? ==> after.status.Acknowledged?
  {
  }
}
