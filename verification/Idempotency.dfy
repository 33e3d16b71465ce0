/**
 * Idempotency keys (internal/idempotency/idempotency.go, internal/service/idempotency.go,
 * internal/storage/sqlite/idempotency.go): who executes a request, what replays return,
 * and when Begin comes to an end. A request is represented by its digest.
 */
module Idempotency {
  import opened Prelude
  import opened TimeEncoding

  datatype State = Started | Completed

  datatype Scope = Scope(actorId: Id, httpMethod: string, path: string, key: string) {
    /** Trimmed, with the method in upper case: what Start stores. */
    function Canonical(): Scope { Scope(Trim(actorId), Upper(Trim(httpMethod)), Trim(path), Trim(key)) }
  }

  function UpperChar(c: char): char { if 'a' <= c <= 'z' then (c as int - 32) as char else c }

  function Upper(text: string): string { seq(|text|, i requires 0 <= i < |text| => UpperChar(text[i])) }

  /** Every small letter becomes its capital, and nothing else changes. */
  lemma UpperLetters(text: string, i: nat)
    requires i < |text|
    ensures |Upper(text)| == |text| && !('a' <= Upper(text)[i] <= 'z')
    ensures Upper(text)[i] != text[i] ==> 'a' <= text[i] <= 'z' && text[i] as int - Upper(text)[i] as int == 'a' as int - 'A' as int
  {
  }

  datatype Record = Record(scope: Scope, digest: string, status: int, body: seq<int>, state: State, expiresAt: Instant) {
    function Complete(newStatus: int, newBody: seq<int>): Result<Record> {
      if !state.Started? then Err(Fault(Conflict, "idempotency_completed"))
      else if newStatus < 100 || newStatus > 599 then Err(Fault(Invalid, "invalid_response_status"))
      else if |newBody| > 1_048_576 then Err(Fault(Invalid, "response_too_large"))
      else Ok(this.(state := Completed, status := newStatus, body := newBody))
    }

    function Replay(request: string, now: Instant): Result<(int, seq<int>)> {
      if now >= expiresAt then Err(Fault(Conflict, "idempotency_expired"))
      else if digest != request then Err(Fault(Conflict, "idempotency_payload_mismatch"))
      else if !state.Completed? then Err(Fault(Conflict, "idempotency_in_progress"))
      else Ok((status, body))
    }
  }

  function Start(scope: Scope, request: string, now: Instant, ttl: nat): Result<Record> {
    var s := scope.Canonical();
    if s.actorId == "" || s.httpMethod == "" || s.path == "" || s.key == "" then Err(Fault(Invalid, "invalid_idempotency_scope"))
    else if |s.key| < 8 || |s.key| > 128 then Err(Fault(Invalid, "invalid_idempotency_key"))
    else if ttl < MINUTE || ttl > 7 * DAY then Err(Fault(Invalid, "invalid_idempotency_ttl"))
    else Ok(Record(s, request, 0, [], Started, now + ttl))
  }

  // ----- Requests and answers in plain terms -----

  predicate Named(scope: Scope) { !Blank(scope.actorId) && !Blank(scope.httpMethod) && !Blank(scope.path) && !Blank(scope.key) }

  predicate Startable(scope: Scope, ttl: nat) {
    Named(scope) && 8 <= |Trim(scope.key)| <= 128 && MINUTE <= ttl <= 7 * DAY
  }

  /** Which fault stands for which defect of a request. */
  predicate StartFault(scope: Scope, ttl: nat, fault: Fault) {
    var keyed := Named(scope) && 8 <= |Trim(scope.key)| <= 128;
    && !Startable(scope, ttl) && fault.kind.Invalid?
    && (fault.code == "invalid_idempotency_scope" <==> !Named(scope))
    && (fault.code == "invalid_idempotency_key" <==> Named(scope) && !keyed)
    && (fault.code == "invalid_idempotency_ttl" <==> keyed)
  }

  /** An open record of the request, in canonical form, to live until that instant. */
  predicate Opened(r: Record, scope: Scope, request: string, until: Instant) {
    && r.scope == Scope(Trim(scope.actorId), Upper(Trim(scope.httpMethod)), Trim(scope.path), Trim(scope.key))
    && r.digest == request && r.state.Started? && r.expiresAt == until && r.status == 0 && r.body == []
  }

  lemma CanonicalParts(scope: Scope)
    ensures var s := scope.Canonical();
            && s == Scope(Trim(scope.actorId), Upper(Trim(scope.httpMethod)), Trim(scope.path), Trim(scope.key))
            && (Named(scope) <==> s.actorId != "" && s.httpMethod != "" && s.path != "" && s.key != "")
  {
    hide Trim, Blank, UpperChar;
  }

  lemma StartIff(scope: Scope, request: string, now: Instant, ttl: nat)
    ensures Start(scope, request, now, ttl).Ok? <==> Startable(scope, ttl)
    ensures Start(scope, request, now, ttl).Ok? ==> Opened(Start(scope, request, now, ttl).value, scope, request, now + ttl)
  {
    CanonicalParts(scope);
    hide Trim, Upper, Named, Scope.Canonical;
  }

  lemma StartFaultIs(scope: Scope, request: string, now: Instant, ttl: nat)
    ensures Start(scope, request, now, ttl).Err? ==> StartFault(scope, ttl, Start(scope, request, now, ttl).fault)
  {
    hide Trim, Upper, Named, Scope.Canonical, Start;
    StartIff(scope, request, now, ttl);
    CodesDiffer();
    if !Startable(scope, ttl) { StartChecks(scope, request, now, ttl); }
  }

  lemma CodesDiffer()
    ensures "invalid_idempotency_scope" != "invalid_idempotency_key" && "invalid_idempotency_scope" != "invalid_idempotency_ttl"
    ensures "invalid_idempotency_key" != "invalid_idempotency_ttl"
  {
    assert "invalid_idempotency_scope"[20] == 's' && "invalid_idempotency_key"[20] == 'k' && "invalid_idempotency_ttl"[20] == 't';
  }

  lemma StartChecks(scope: Scope, request: string, now: Instant, ttl: nat)
    requires !Startable(scope, ttl)
    ensures Start(scope, request, now, ttl)
            == Err(Fault(Invalid, if !Named(scope) then "invalid_idempotency_scope"
                                  else if !(8 <= |Trim(scope.key)| <= 128) then "invalid_idempotency_key" else "invalid_idempotency_ttl"))
  {
    CanonicalParts(scope);
    hide Trim, Upper, Named, Scope.Canonical;
  }

  /** Only before it expires, and only to the same request, a completed record replays its response. */
  predicate Answered(r: Record, request: string, now: Instant, status: int, body: seq<int>) {
    now < r.expiresAt && r.digest == request && r.state.Completed? && r.status == status && r.body == body
  }

  predicate ReplayFault(r: Record, request: string, now: Instant, fault: Fault) {
    && fault.kind.Conflict?
    && (fault.code == "idempotency_expired" <==> r.expiresAt <= now)
    && (fault.code == "idempotency_payload_mismatch" <==> now < r.expiresAt && r.digest != request)
    && (fault.code == "idempotency_in_progress" <==> now < r.expiresAt && r.digest == request && r.state.Started?)
    && !Answered(r, request, now, r.status, r.body)
  }

  lemma ReplayIff(r: Record, request: string, now: Instant)
    ensures forall status, body :: r.Replay(request, now) == Ok((status, body)) <==> Answered(r, request, now, status, body)
    ensures r.Replay(request, now).Err? ==> ReplayFault(r, request, now, r.Replay(request, now).fault)
  {
    assert "idempotency_expired"[12] == 'e' && "idempotency_payload_mismatch"[12] == 'p' && "idempotency_in_progress"[12] == 'i';
  }

  lemma CompleteIff(r: Record, status: int, body: seq<int>)
    ensures r.Complete(status, body).Ok? <==> r.state.Started? && 100 <= status <= 599 && |body| <= 1_048_576
  {
  }

  // ----- The table -----

  datatype Keys = Keys(users: set<Id>, records: map<Id, Record>)

  predicate Taken(records: map<Id, Record>, scope: Scope) { exists id | id in records :: records[id].scope == scope }

  /** Every constraint that the insert can meet, each reported as a conflict. */
  predicate Insertable(k: Keys, id: Id, r: Record) {
    id !in k.records && !Taken(k.records, r.scope) && r.scope.actorId in k.users
  }

  datatype Command =
    | AddUser(user: Id)
    | Insert(id: Id, scope: Scope, request: string, now: Instant, ttl: nat)
    | CompleteKey(id: Id, held: Record, status: int, body: seq<int>)
    | DeleteExpired(now: Instant)

  function NewRecord(c: Command): Result<Record>
    requires c.Insert?
  {
    Start(c.scope, c.request, c.now, c.ttl)
  }

  /** The caller becomes the owner. */
  predicate Inserts(k: Keys, c: Command)
    requires c.Insert?
  {
    NewRecord(c).Ok? && Insertable(k, c.id, NewRecord(c).value)
  }

  /** UPDATE ... WHERE id=? AND state='started' */
  predicate Completes(k: Keys, c: Command)
    requires c.CompleteKey?
  {
    c.held.Complete(c.status, c.body).Ok? && c.id in k.records && k.records[c.id].state.Started?
  }

  function Exec(k: Keys, c: Command): Keys {
    match c
    case AddUser(user) => k.(users := k.users + {user})
    case Insert(id, _, _, _, _) => if Inserts(k, c) then k.(records := k.records[id := NewRecord(c).value]) else k
    case CompleteKey(id, _, status, body) =>
      if Completes(k, c) then k.(records := k.records[id := k.records[id].(state := Completed, status := status, body := body)]) else k
    case DeleteExpired(now) => k.(records := map id | id in k.records && SqlLess(now, k.records[id].expiresAt) :: k.records[id])
  }

  function After(calls: seq<Command>): Keys {
    if calls == [] then Keys({}, map[]) else Exec(After(calls[..|calls| - 1]), calls[|calls| - 1])
  }

  lemma AfterLast(calls: seq<Command>, c: Command)
    ensures After(calls + [c]) == Exec(After(calls), c)
  {
    assert (calls + [c])[..|calls|] == calls;
  }

  lemma AfterStep(calls: seq<Command>, k: nat)
    requires k < |calls|
    ensures After(calls[..k + 1]) == Exec(After(calls[..k]), calls[k])
  {
    assert calls[..k + 1] == calls[..k] + [calls[k]];
    AfterLast(calls[..k], calls[k]);
  }

  // ----- At most one owner -----

  lemma {:induction false} ScopesAreUnique(calls: seq<Command>, a: Id, b: Id)
    requires a in After(calls).records && b in After(calls).records && After(calls).records[a].scope == After(calls).records[b].scope
    ensures a == b
  {
    if a != b {
      var n := |calls| - 1;
      var before := After(calls[..n]);
      if a in before.records && b in before.records {
        ScopesAreUnique(calls[..n], a, b);
      }
    }
  }

  /** Nothing but a deletion frees a taken scope. */
  lemma TakenStays(k: Keys, c: Command, scope: Scope)
    requires Taken(k.records, scope) && !c.DeleteExpired?
    ensures Taken(Exec(k, c).records, scope)
  {
    var id :| id in k.records && k.records[id].scope == scope;
    assert id in Exec(k, c).records && Exec(k, c).records[id].scope == scope;
  }

  lemma {:induction false} TakenUntilDeleted(calls: seq<Command>, i: nat, k: nat, scope: Scope)
    requires i <= k <= |calls| && Taken(After(calls[..i]).records, scope)
    requires forall j :: i <= j < k ==> !calls[j].DeleteExpired?
    ensures Taken(After(calls[..k]).records, scope)
    decreases k
  {
    if i < k {
      TakenUntilDeleted(calls, i, k - 1, scope);
      AfterStep(calls, k - 1);
      TakenStays(After(calls[..k - 1]), calls[k - 1], scope);
    }
  }

  /**
   * At most one caller becomes the owner of a scope while its record lives: between two
   * successful inserts for one scope the record was deleted.
   */
  lemma OneOwnerPerLifetime(calls: seq<Command>, i: nat, k: nat)
    requires i < k < |calls| && calls[i].Insert? && calls[k].Insert? && calls[i].scope.Canonical() == calls[k].scope.Canonical()
    requires Inserts(After(calls[..i]), calls[i]) && Inserts(After(calls[..k]), calls[k])
    ensures exists j :: i < j < k && calls[j].DeleteExpired? && Taken(After(calls[..j]).records, calls[i].scope.Canonical())
                        && !Taken(After(calls[..j + 1]).records, calls[i].scope.Canonical())
  {
    hide Exec, After, Inserts, Scope.Canonical;
    var scope := calls[i].scope.Canonical();
    InsertTakes(calls, i);
    var j := i + 1;
    while j < k && Taken(After(calls[..j + 1]).records, scope)
      invariant i < j <= k && Taken(After(calls[..j]).records, scope)
    {
      j := j + 1;
    }
    if j == k {
      InsertFindsFree(calls, k);
    } else if !calls[j].DeleteExpired? {
      AfterStep(calls, j);
      TakenStays(After(calls[..j]), calls[j], scope);
    }
  }

  lemma InsertTakes(calls: seq<Command>, i: nat)
    requires i < |calls| && calls[i].Insert? && Inserts(After(calls[..i]), calls[i])
    ensures Taken(After(calls[..i + 1]).records, calls[i].scope.Canonical())
  {
    hide After, Exec, Inserts;
    AfterStep(calls, i);
    InsertStores(After(calls[..i]), calls[i]);
    var after := After(calls[..i + 1]).records;
    assert calls[i].id in after && after[calls[i].id].scope == calls[i].scope.Canonical();
  }

  lemma InsertStores(k: Keys, c: Command)
    requires c.Insert? && Inserts(k, c)
    ensures c.id in Exec(k, c).records && Exec(k, c).records[c.id].scope == c.scope.Canonical()
  {
    hide Scope.Canonical, Insertable;
  }

  lemma InsertFindsFree(calls: seq<Command>, k: nat)
    requires k < |calls| && calls[k].Insert? && Inserts(After(calls[..k]), calls[k])
    ensures !Taken(After(calls[..k]).records, calls[k].scope.Canonical())
  {
  }

  // ----- One response -----

  /** One step leaves a completed record alone, unless it deletes it. */
  lemma CompletedStays(k: Keys, c: Command, id: Id)
    requires id in k.records && id in Exec(k, c).records
    ensures k.records[id].state.Completed? ==> Exec(k, c).records[id] == k.records[id]
    ensures Exec(k, c).records[id].digest == k.records[id].digest
  {
  }

  lemma {:induction false} CompletedIsFinal(calls: seq<Command>, i: nat, k: nat, id: Id)
    requires i <= k <= |calls| && forall j :: i <= j <= k ==> id in After(calls[..j]).records
    requires After(calls[..i]).records[id].state.Completed?
    ensures After(calls[..k]).records[id] == After(calls[..i]).records[id]
    decreases k
  {
    if i < k {
      CompletedIsFinal(calls, i, k - 1, id);
      AfterStep(calls, k - 1);
      CompletedStays(After(calls[..k - 1]), calls[k - 1], id);
    }
  }

  /** Any two accepted replays of one record return the same status and body, for the same request. */
  lemma ReplaysAgree(calls: seq<Command>, i: nat, k: nat, id: Id, a: string, b: string, first: Instant, later: Instant)
    requires i <= k <= |calls| && forall j :: i <= j <= k ==> id in After(calls[..j]).records
    requires After(calls[..i]).records[id].Replay(a, first).Ok? && After(calls[..k]).records[id].Replay(b, later).Ok?
    ensures a == b && After(calls[..i]).records[id].Replay(a, first) == After(calls[..k]).records[id].Replay(b, later)
  {
    CompletedIsFinal(calls, i, k, id);
  }

  ghost predicate WroteResponse(calls: seq<Command>, j: nat, id: Id, status: int, body: seq<int>) {
    j < |calls| && calls[j].CompleteKey? && calls[j].id == id && Completes(After(calls[..j]), calls[j])
    && calls[j].status == status && calls[j].body == body
  }

  /** An accepted replay returns what one completion wrote. */
  lemma {:induction false} ReplayIsACompletion(calls: seq<Command>, id: Id)
    requires id in After(calls).records && After(calls).records[id].state.Completed?
    ensures exists j: nat :: WroteResponse(calls, j, id, After(calls).records[id].status, After(calls).records[id].body)
  {
    var n := |calls| - 1;
    var (before, r) := (After(calls[..n]), After(calls).records[id]);
    assert After(calls) == Exec(before, calls[n]);
    hide Exec, Completes, Inserts, After;
    if id in before.records && before.records[id].state.Completed? {
      ReplayIsACompletion(calls[..n], id);
      CompletedStays(before, calls[n], id);
      var j: nat :| WroteResponse(calls[..n], j, id, before.records[id].status, before.records[id].body);
      assert calls[..n][..j] == calls[..j];
      assert WroteResponse(calls, j, id, r.status, r.body);
    } else {
      CompletedByThisCall(before, calls[n], id);
      assert WroteResponse(calls, n, id, r.status, r.body);
    }
  }

  lemma CompletedByThisCall(k: Keys, c: Command, id: Id)
    requires id in Exec(k, c).records && Exec(k, c).records[id].state.Completed?
    requires id in k.records ==> !k.records[id].state.Completed?
    ensures c.CompleteKey? && c.id == id && Completes(k, c)
    ensures Exec(k, c).records[id].status == c.status && Exec(k, c).records[id].body == c.body
  {
    hide Scope.Canonical, Insertable;
  }

  // ----- The life of a record -----

  /** Call j inserted the record of this scope, for this request, to live until that instant. */
  ghost predicate InsertedAt(calls: seq<Command>, j: nat, id: Id, scope: Scope, request: string, until: Instant) {
    && j < |calls| && calls[j].Insert? && calls[j].id == id && Inserts(After(calls[..j]), calls[j])
    && calls[j].scope.Canonical() == scope && calls[j].request == request && until == calls[j].now + calls[j].ttl
  }

  /** Scope, request and expiry of a record are those of the call that inserted it, whatever has been done since. */
  lemma {:induction false} RecordsComeFromInserts(calls: seq<Command>, id: Id)
    requires id in After(calls).records
    ensures var r := After(calls).records[id]; exists j: nat :: InsertedAt(calls, j, id, r.scope, r.digest, r.expiresAt)
  {
    var n := |calls| - 1;
    var (before, r) := (After(calls[..n]), After(calls).records[id]);
    assert After(calls) == Exec(before, calls[n]);
    hide After, Exec, Inserts, Scope.Canonical, InsertedAt;
    if id in before.records {
      RecordsComeFromInserts(calls[..n], id);
      IdentityStays(before, calls[n], id);
      var j: nat :| InsertedAt(calls[..n], j, id, r.scope, r.digest, r.expiresAt);
      InsertedEarlier(calls, n, j, id, r.scope, r.digest, r.expiresAt);
    } else {
      InsertedByThisCall(before, calls[n], id);
      InsertedLast(calls, n, id, r.scope, r.digest, r.expiresAt);
    }
  }

  lemma InsertedEarlier(calls: seq<Command>, n: nat, j: nat, id: Id, scope: Scope, request: string, until: Instant)
    requires n <= |calls| && InsertedAt(calls[..n], j, id, scope, request, until)
    ensures InsertedAt(calls, j, id, scope, request, until)
  {
    hide After, Inserts, Scope.Canonical;
    assert calls[..n][..j] == calls[..j];
  }

  lemma InsertedLast(calls: seq<Command>, n: nat, id: Id, scope: Scope, request: string, until: Instant)
    requires n < |calls| && calls[n].Insert? && calls[n].id == id && Inserts(After(calls[..n]), calls[n])
    requires calls[n].scope.Canonical() == scope && calls[n].request == request && until == calls[n].now + calls[n].ttl
    ensures InsertedAt(calls, n, id, scope, request, until)
  {
    hide After, Inserts, Scope.Canonical;
  }

  lemma IdentityStays(k: Keys, c: Command, id: Id)
    requires id in k.records && id in Exec(k, c).records
    ensures var (r, s) := (k.records[id], Exec(k, c).records[id]); s.scope == r.scope && s.digest == r.digest && s.expiresAt == r.expiresAt
  {
    hide Scope.Canonical, Start;
  }

  lemma InsertedByThisCall(k: Keys, c: Command, id: Id)
    requires id in Exec(k, c).records && id !in k.records
    ensures c.Insert? && c.id == id && Inserts(k, c)
    ensures var r := Exec(k, c).records[id]; r.scope == c.scope.Canonical() && r.digest == c.request && r.expiresAt == c.now + c.ttl
  {
    if c.Insert? { StartIff(c.scope, c.request, c.now, c.ttl); }
    hide Scope.Canonical, Insertable, Taken;
  }

  /** A response is replayed only to the request that was inserted, and only within the lifetime it was inserted with. */
  lemma ReplaysAreTimely(calls: seq<Command>, id: Id, request: string, now: Instant)
    requires id in After(calls).records && After(calls).records[id].Replay(request, now).Ok?
    ensures exists j: nat :: j < |calls| && calls[j].Insert? && calls[j].id == id && Inserts(After(calls[..j]), calls[j])
              && calls[j].scope.Canonical() == After(calls).records[id].scope && calls[j].request == request
              && now < calls[j].now + calls[j].ttl
  {
    var r := After(calls).records[id];
    ReplayIff(r, request, now);
    RecordsComeFromInserts(calls, id);
    hide After, Inserts, Scope.Canonical, Record.Replay;
    var response := r.Replay(request, now).value;
    assert Answered(r, request, now, response.0, response.1);
    var j: nat :| InsertedAt(calls, j, id, r.scope, r.digest, r.expiresAt);
  }

  /** On comparable times the maintenance deletes exactly the expired records. */
  lemma DeletionIsExpiry(k: Keys, now: Instant, id: Id)
    requires id in k.records && FourDigitYear(now) && FourDigitYear(k.records[id].expiresAt) && Comparable(now, k.records[id].expiresAt)
    ensures id in Exec(k, DeleteExpired(now)).records <==> now < k.records[id].expiresAt
    ensures id in Exec(k, DeleteExpired(now)).records ==> Exec(k, DeleteExpired(now)).records[id] == k.records[id]
  {
    ComparableOrder(now, k.records[id].expiresAt);
    hide SqlLess, Comparable, FourDigitYear;
  }

  // ----- When Begin ends -----

  datatype Decision = Replayed(status: int, body: seq<int>) | Owner(record: Record) | Refused(fault: Fault) | Again

  /** One round of Begin while nobody else runs: look up the scope as given, else insert the canonical one. */
  ghost function Round(k: Keys, id: Id, scope: Scope, request: string, now: Instant, ttl: nat): Decision {
    if Taken(k.records, scope) then
      var found :| found in k.records && k.records[found].scope == scope;
      match k.records[found].Replay(request, now)
      case Ok(response) => Replayed(response.0, response.1)
      case Err(fault) => Refused(fault)
    else
      var started := Start(scope, request, now, ttl);
      if started.Err? then Refused(started.fault)
      else if Insertable(k, id, started.value) then Owner(started.value)
      else Again
  }

  /** The recursion, given up after n rounds. */
  ghost function Rounds(k: Keys, ids: seq<Id>, scope: Scope, request: string, now: Instant, ttl: nat): Decision {
    if ids == [] then Again
    else
      var decision := Round(k, ids[0], scope, request, now, ttl);
      if decision.Again? then Rounds(k, ids[1..], scope, request, now, ttl) else decision
  }

  /** The lookup misses a record that the insert runs into, or the insert names no user. */
  predicate Stuck(k: Keys, scope: Scope, ttl: nat) {
    && !Taken(k.records, scope) && Startable(scope, ttl)
    && (Taken(k.records, scope.Canonical()) || scope.Canonical().actorId !in k.users)
  }

  lemma RoundAgainIff(k: Keys, id: Id, scope: Scope, request: string, now: Instant, ttl: nat)
    requires id !in k.records
    ensures Round(k, id, scope, request, now, ttl).Again? <==> Stuck(k, scope, ttl)
  {
    hide Scope.Canonical, Startable, Start, Opened, StartFault;
    StartIff(scope, request, now, ttl);
    if Start(scope, request, now, ttl).Ok? { StartsCanonical(scope, request, now, ttl); }
  }

  lemma StartsCanonical(scope: Scope, request: string, now: Instant, ttl: nat)
    requires Start(scope, request, now, ttl).Ok?
    ensures Start(scope, request, now, ttl).value.scope == scope.Canonical()
  {
    hide Scope.Canonical;
  }

  /**
   * On a store that does not change, Begin with fresh identifiers ends if and only if it
   * is not stuck, and then in its first round.
   */
  lemma {:induction false} BeginEndsIffNotStuck(k: Keys, ids: seq<Id>, scope: Scope, request: string, now: Instant, ttl: nat)
    requires ids != [] && forall i :: 0 <= i < |ids| ==> ids[i] !in k.records
    ensures Rounds(k, ids, scope, request, now, ttl).Again? <==> Stuck(k, scope, ttl)
    ensures !Stuck(k, scope, ttl) ==> !Round(k, ids[0], scope, request, now, ttl).Again?
    decreases |ids|
  {
    RoundAgainIff(k, ids[0], scope, request, now, ttl);
    hide Round, Stuck;
    if |ids| > 1 {
      BeginEndsIffNotStuck(k, ids[1..], scope, request, now, ttl);
    }
  }

  /** A canonical scope of a known user is never stuck. */
  lemma CanonicalScopesAreNotStuck(k: Keys, scope: Scope, ttl: nat)
    requires scope.Canonical() == scope && scope.actorId in k.users
    ensures !Stuck(k, scope, ttl)
  {
  }

  /** A lower-case method is stuck as soon as the key has been used, however often it is tried. */
  lemma LowerCaseMethodCanBeStuck(r: Record)
    requires r.scope == Scope("u", "POST", "/plans", "12345678")
    ensures Stuck(Keys({"u"}, map["1" := r]), Scope("u", "post", "/plans", "12345678"), MINUTE)
  {
    hide Scope.Canonical;
    CanonicalPost();
    var (records, scope) := (map["1" := r], Scope("u", "post", "/plans", "12345678"));
    assert "1" in records && records["1"].scope == scope.Canonical();
    assert !Taken(records, scope) by { assert "post"[0] != "POST"[0]; }
    hide Taken;
    PostIsStartable();
  }

  lemma PostIsStartable()
    ensures Startable(Scope("u", "post", "/plans", "12345678"), MINUTE)
  {
    hide Trim, Blank;
    TrimPrintable("u");
    TrimPrintable("post");
    TrimPrintable("/plans");
    TrimPrintable("12345678");
    assert "u" != "" && "post" != "" && "/plans" != "" && "12345678" != "";
  }

  lemma UpperPost()
    ensures Upper("post") == "POST"
  {
  }

  lemma CanonicalPost()
    ensures Scope("u", "post", "/plans", "12345678").Canonical() == Scope("u", "POST", "/plans", "12345678")
  {
    hide Trim, Upper;
    TrimPrintable("u");
    TrimPrintable("post");
    TrimPrintable("/plans");
    TrimPrintable("12345678");
    UpperPost();
  }

  // ----- Scopes as stored -----

  lemma TrimTwice(text: string)
    ensures Trim(Trim(text)) == Trim(text)
  {
    if Trim(text) != "" { TrimKeeps(Trim(text)); }
  }

  lemma UpperKeepsSpaces(c: char)
    ensures IsSpace(UpperChar(c)) <==> IsSpace(c)
    ensures UpperChar(UpperChar(c)) == UpperChar(c)
  {
    if 'a' <= c <= 'z' {
      PrintableIsNoSpace(c);
      PrintableIsNoSpace(UpperChar(c));
    }
  }

  lemma UpperTwice(text: string)
    ensures Upper(Trim(Upper(Trim(text)))) == Upper(Trim(text))
  {
    var (t, u) := (Trim(text), Upper(Trim(text)));
    hide Trim, UpperChar;
    if t != "" {
      UpperKeepsSpaces(t[0]);
      UpperKeepsSpaces(t[|t| - 1]);
      TrimKeeps(u);
    } else {
      TrimTwice(text);
    }
    forall i | 0 <= i < |t| ensures UpperChar(u[i]) == u[i] { UpperKeepsSpaces(t[i]); }
  }

  lemma CanonicalTwice(scope: Scope)
    ensures scope.Canonical().Canonical() == scope.Canonical()
  {
    hide Trim, Upper;
    TrimTwice(scope.actorId);
    UpperTwice(scope.httpMethod);
    TrimTwice(scope.path);
    TrimTwice(scope.key);
  }

  /** Every stored scope is canonical, so a lookup by any other scope finds nothing. */
  lemma {:induction false} StoredScopesAreCanonical(calls: seq<Command>, id: Id)
    requires id in After(calls).records
    ensures After(calls).records[id].scope.Canonical() == After(calls).records[id].scope
  {
    var n := |calls| - 1;
    var before := After(calls[..n]);
    assert After(calls) == Exec(before, calls[n]);
    ScopeStep(before, calls[n], id);
    hide After, Scope.Canonical, Exec, NewRecord;
    if id in before.records {
      StoredScopesAreCanonical(calls[..n], id);
    } else {
      NewScopeIsCanonical(calls[n]);
    }
  }

  lemma ScopeStep(k: Keys, c: Command, id: Id)
    requires id in Exec(k, c).records
    ensures id in k.records ==> Exec(k, c).records[id].scope == k.records[id].scope
    ensures id !in k.records ==> c.Insert? && NewRecord(c).Ok? && Exec(k, c).records[id].scope == NewRecord(c).value.scope
  {
    hide Start;
  }

  lemma NewScopeIsCanonical(c: Command)
    ensures c.Insert? && NewRecord(c).Ok? ==> NewRecord(c).value.scope.Canonical() == NewRecord(c).value.scope
  {
    hide Scope.Canonical;
    if c.Insert? { CanonicalTwice(c.scope); }
  }

  /**
   * In every reachable store: Begin is stuck exactly when the request is otherwise valid
   * and either its scope is not canonical and the key was used, or it names no user and
   * finds no record.
   */
  lemma StuckIff(calls: seq<Command>, scope: Scope, ttl: nat)
    ensures Stuck(After(calls), scope, ttl) <==>
              && Startable(scope, ttl)
              && ((scope != scope.Canonical() && Taken(After(calls).records, scope.Canonical()))
                  || (scope.Canonical().actorId !in After(calls).users && !Taken(After(calls).records, scope)))
  {
    hide Start, After, Scope.Canonical;
    if Taken(After(calls).records, scope) {
      var id :| id in After(calls).records && After(calls).records[id].scope == scope;
      StoredScopesAreCanonical(calls, id);
    }
  }

  // ----- The service -----

  class Service {
    var keys: Keys
    ghost var calls: seq<Command>

    ghost predicate Valid()
      reads this
    {
      keys == After(calls)
    }

    constructor ()
      ensures Valid() && calls == []
    {
      keys := Keys({}, map[]);
      calls := [];
    }

    method Execute(c: Command)
      requires Valid()
      modifies this
      ensures Valid() && calls == old(calls) + [c] && keys == Exec(old(keys), c)
    {
      AfterLast(calls, c);
      keys := Exec(keys, c);
      calls := calls + [c];
    }

    /** Other callers run; `reserved` is an identifier that nobody else draws. */
    method Interfere(reserved: Id)
      requires Valid() && reserved !in keys.records
      modifies this
      ensures Valid() && old(calls) <= calls && reserved !in keys.records
      ensures old(keys).users <= keys.users
    {
      var others: seq<Command> := *;
      for i := 0 to |others|
        invariant Valid() && old(calls) <= calls && reserved !in keys.records && old(keys).users <= keys.users
      {
        if !(others[i].Insert? && others[i].id == reserved) {
          Execute(others[i]);
        }
      }
    }

    /** One round: lookup, other callers, insert. */
    method BeginOnce(id: Id, scope: Scope, request: string, now: Instant, ttl: nat) returns (decision: Decision, ghost looked: seq<Command>)
      requires Valid() && id !in keys.records
      modifies this
      ensures Valid() && old(calls) <= looked <= calls && old(keys).users <= keys.users
      ensures decision.Replayed? ==> exists found :: FoundAt(looked, found, scope) && Answers(looked, found, request, now, decision)
      ensures decision.Owner? ==> OwnsAt(calls, id, scope, request, now, ttl, decision.record)
      ensures decision.Refused? ==>
                || StartFault(scope, ttl, decision.fault)
                || exists found :: FoundAt(looked, found, scope) && ReplayFault(After(looked).records[found], request, now, decision.fault)
      ensures decision.Again? ==> id !in keys.records && Startable(scope, ttl)
                                  && (Taken(keys.records, scope.Canonical()) || scope.Canonical().actorId !in keys.users)
      ensures Taken(After(looked).records, scope) ==> !decision.Owner? && !decision.Again?
    {
      hide Scope.Canonical, Start, Startable, StartFault, Opened, ReplayFault, Record.Replay;
      Interfere(id);
      looked := calls;
      if Taken(keys.records, scope) {
        var found :| found in keys.records && keys.records[found].scope == scope;
        assert FoundAt(looked, found, scope);
        var replay := keys.records[found].Replay(request, now);
        ReplayIff(keys.records[found], request, now);
        return if replay.Ok? then Replayed(replay.value.0, replay.value.1) else Refused(replay.fault), looked;
      }
      var started := Start(scope, request, now, ttl);
      StartIff(scope, request, now, ttl);
      StartFaultIs(scope, request, now, ttl);
      if started.Err? {
        return Refused(started.fault), looked;
      }
      Interfere(id);
      ghost var before := calls;
      var inserted := Insertable(keys, id, started.value);
      Execute(Insert(id, scope, request, now, ttl));
      assert calls[..|calls| - 1] == before;
      if started.Ok? { StartsCanonical(scope, request, now, ttl); }
      decision := if inserted then Owner(started.value) else Again;
    }

    /**
     * The decision of Begin and what it means: an owner has just inserted the record, a
     * replay or refusal is the answer of a stored record (or the request is invalid), and
     * without a deletion meanwhile there is at most one retry.
     */
    method Begin(id: Id, scope: Scope, request: string, now: Instant, ttl: nat)
      returns (decision: Decision, rounds: nat, ghost looked: seq<Command>, ghost quiet: bool)
      requires Valid() && id !in keys.records && scope.Canonical() == scope && scope.actorId in keys.users
      modifies this
      ensures Valid() && old(calls) <= looked <= calls
      ensures decision.Replayed? ==> exists found :: FoundAt(looked, found, scope) && Answers(looked, found, request, now, decision)
      ensures decision.Owner? ==> OwnsAt(calls, id, scope, request, now, ttl, decision.record)
      ensures decision.Refused? ==>
                || StartFault(scope, ttl, decision.fault)
                || exists found :: FoundAt(looked, found, scope) && ReplayFault(After(looked).records[found], request, now, decision.fault)
      ensures quiet <==> NoDeletion(calls, |old(calls)|)
      ensures 1 <= rounds <= 2 && (quiet ==> !decision.Again?)
      ensures decision.Again? ==> rounds == 2 && Taken(keys.records, scope)
    {
      hide Start, Scope.Canonical, OwnsAt, After, Startable, StartFault, ReplayFault, Answers;
      decision, looked := BeginOnce(id, scope, request, now, ttl);
      rounds := 1;
      if decision.Again? {
        ghost var middle := calls;
        decision, looked := BeginOnce(id, scope, request, now, ttl);
        rounds := 2;
        if NoDeletion(calls, |old(calls)|) {
          StillTaken(middle, looked, scope, calls, |old(calls)|);
        }
      }
      quiet := NoDeletion(calls, |old(calls)|);
    }

    /** Complete: the owner's copy is still open; the row must be, too. */
    method Complete(id: Id, held: Record, status: int, body: seq<int>) returns (refused: Option<Fault>)
      requires Valid()
      modifies this
      ensures Valid() && calls == old(calls) + [CompleteKey(id, held, status, body)]
      ensures refused.None? <==>
                && held.state.Started? && 100 <= status <= 599 && |body| <= 1_048_576
                && id in old(keys).records && old(keys).records[id].state.Started?
      ensures refused.None? ==> keys == old(keys).(records := old(keys).records[id :=
                                  old(keys).records[id].(state := Completed, status := status, body := body)])
      ensures refused.Some? ==> keys == old(keys)
    {
      var c := CompleteKey(id, held, status, body);
      var completed := held.Complete(status, body);
      var written := Completes(keys, c);
      Execute(c);
      refused := if completed.Err? then Some(completed.fault) else if written then None else Some(VERSION_CONFLICT);
    }
  }

  ghost predicate FoundAt(calls: seq<Command>, found: Id, scope: Scope) {
    found in After(calls).records && After(calls).records[found].scope == scope
  }

  /** The last call inserted the owner's record, made from the request. */
  ghost predicate OwnsAt(calls: seq<Command>, id: Id, scope: Scope, request: string, now: Instant, ttl: nat, record: Record) {
    && calls != [] && calls[|calls| - 1] == Insert(id, scope, request, now, ttl)
    && Inserts(After(calls[..|calls| - 1]), calls[|calls| - 1])
    && id in After(calls).records && After(calls).records[id] == record && Opened(record, scope, request, now + ttl)
  }

  /** The decision is what the record found replays. */
  ghost predicate Answers(calls: seq<Command>, found: Id, request: string, now: Instant, decision: Decision)
    requires found in After(calls).records && decision.Replayed?
  {
    Answered(After(calls).records[found], request, now, decision.status, decision.body)
  }

  ghost predicate NoDeletion(calls: seq<Command>, from: nat) { forall j :: from <= j < |calls| ==> !calls[j].DeleteExpired? }

  lemma StillTaken(middle: seq<Command>, looked: seq<Command>, scope: Scope, calls: seq<Command>, from: nat)
    requires middle <= looked <= calls && from <= |middle| && NoDeletion(calls, from) && Taken(After(middle).records, scope)
    ensures Taken(After(looked).records, scope)
  {
    assert calls[..|middle|] == middle && calls[..|looked|] == looked;
    TakenUntilDeleted(calls, |middle|, |looked|, scope);
  }
}
