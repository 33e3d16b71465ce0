/**
 * Settlement periods: competing CalculateAndClose calls (internal/settlement/settlement.go,
 * internal/service/settlements.go) and the transaction InsertEntriesAtomic
 * (internal/storage/sqlite/operations.go), as a machine over whole runs.
 */
module Settlements {
  import opened Prelude
  import opened TimeEncoding
  import opened Clock
  import opened Amounts

  datatype PeriodStatus = Open | Calculating | Closed

  datatype Period = Period(siteId: Id, window: Window, status: PeriodStatus, closedBy: Id, closedAt: Option<Instant>, version: int) {
    function Begin(expected: int, completedPlans: nat, unsettledPlans: nat, now: Instant): Result<Period> {
      if version != expected then Err(VERSION_CONFLICT)
      else if !status.Open? then Err(Fault(Conflict, "period_not_open"))
      else if now < window.end then Err(Fault(Conflict, "period_not_ended"))
      else if completedPlans == 0 then Err(Fault(Conflict, "period_empty"))
      else if unsettledPlans != completedPlans then Err(Fault(Conflict, "plan_scope_mismatch"))
      else Ok(this.(status := Calculating, version := version + 1))
    }

    function Close(actor: Id, expected: int, expectedEntries: int, actualEntries: int, now: Instant): Result<Period> {
      if version != expected then Err(VERSION_CONFLICT)
      else if !status.Calculating? then Err(Fault(Conflict, "period_not_calculating"))
      else if expectedEntries <= 0 || expectedEntries != actualEntries then Err(Fault(Conflict, "settlement_incomplete"))
      else if Blank(actor) then Err(Fault(Invalid, "actor_required"))
      else Ok(this.(status := Closed, closedBy := actor, closedAt := Some(now), version := version + 1))
    }
  }

  function NewPeriod(siteId: Id, start: Instant, end: Instant): Result<Period> {
    if Blank(siteId) then Err(Fault(Invalid, "missing_site"))
    else
      var window := NewWindow(start, end);
      if window.None? then Err(Fault(Invalid, "invalid_period_window"))
      else if window.value.Duration() < HOUR || window.value.Duration() > 366 * DAY then Err(Fault(Invalid, "invalid_period_duration"))
      else Ok(Period(siteId, window.value, Open, "", None, 1))
  }

  /** A completed plan of the period's listing, with its energy as summed over the telemetry. */
  datatype Energy = Energy(planId: Id, targetKWh: int, actualWh: int)

  datatype Books = Books(periods: map<Id, Period>, entries: map<Id, Entry>)

  datatype Command =
    | CreatePeriod(id: Id, siteId: Id, start: Instant, end: Instant)
    | CalculateAndClose(actor: Id, id: Id, expected: int, price: int, listed: seq<Energy>, entryIds: seq<Id>, now: Instant,
                        at: nat, audited: bool)

  // ----- Entries -----

  /** The listing is read by primary key: no plan twice. */
  predicate DistinctPlans(listed: seq<Energy>) {
    forall i, j :: 0 <= i < j < |listed| ==> listed[i].planId != listed[j].planId
  }

  function EntryOf(id: Id, energy: Energy, price: int): Result<Entry> {
    NewEntry(id, energy.planId, energy.targetKWh * 1000, energy.actualWh, price)
  }

  predicate Enterable(id: Id, listed: seq<Energy>, price: int) {
    forall i :: 0 <= i < |listed| ==> EntryOf(id, listed[i], price).Ok?
  }

  function EntryRows(id: Id, listed: seq<Energy>, price: int): (rows: seq<Entry>)
    requires Enterable(id, listed, price)
    ensures |rows| == |listed|
  {
    seq(|listed|, i requires 0 <= i < |listed| => EntryOf(id, listed[i], price).value)
  }

  predicate Settleable(id: Id, energy: Energy, price: int) {
    !Blank(id) && !Blank(energy.planId) && energy.targetKWh > 0 && energy.actualWh >= 0 && price >= 0
  }

  /**
   * The entry of a plan: its target as planned energy, the measured energy as actual, and
   * the measured energy at the price, each exact as long as int64 holds it.
   */
  predicate Measures(e: Entry, energy: Energy, price: int) {
    && e.planId == energy.planId && e.plannedWh == 1000 * energy.targetKWh && e.actualWh == energy.actualWh
    && (e.deviationWh == energy.actualWh - 1000 * energy.targetKWh <==> Fits(energy.actualWh - 1000 * energy.targetKWh))
    && e.deviationWh == Wrap(energy.actualWh - 1000 * energy.targetKWh)
    && (e.amountMilliCent == energy.actualWh * price / 1000 <==> energy.actualWh * price < TWO_63)
    && e.amountMilliCent == Truncated(Wrap(energy.actualWh * price), 1000)
  }

  lemma EntryMeasures(id: Id, energy: Energy, price: int)
    ensures EntryOf(id, energy, price).Ok? <==> Settleable(id, energy, price)
    ensures EntryOf(id, energy, price).Ok? ==>
              EntryOf(id, energy, price).value.periodId == id && Measures(EntryOf(id, energy, price).value, energy, price)
  {
    if EntryOf(id, energy, price).Ok? {
      AmountIsExactIff(id, energy.planId, 1000 * energy.targetKWh, energy.actualWh, price);
      WrapIsExactIffItFits(energy.actualWh - 1000 * energy.targetKWh);
    }
    hide Blank, Wrap, Truncated;
  }

  lemma RowsMeasure(id: Id, listed: seq<Energy>, price: int)
    requires Enterable(id, listed, price)
    ensures forall i :: 0 <= i < |listed| ==>
              var e := EntryRows(id, listed, price)[i]; e.periodId == id && Measures(e, listed[i], price) && Settleable(id, listed[i], price)
  {
    hide EntryOf, Measures, Settleable;
    forall i | 0 <= i < |listed|
      ensures var e := EntryRows(id, listed, price)[i]; e.periodId == id && Measures(e, listed[i], price) && Settleable(id, listed[i], price)
    {
      EntryMeasures(id, listed[i], price);
    }
  }

  lemma EnterableIff(id: Id, listed: seq<Energy>, price: int)
    ensures Enterable(id, listed, price) <==> forall i :: 0 <= i < |listed| ==> Settleable(id, listed[i], price)
  {
    hide EntryOf, Measures, Settleable;
    forall i | 0 <= i < |listed| ensures EntryOf(id, listed[i], price).Ok? <==> Settleable(id, listed[i], price) {
      EntryMeasures(id, listed[i], price);
    }
  }

  // ----- Totals of a listing -----

  function TargetsOf(listed: seq<Energy>): int { if listed == [] then 0 else TargetsOf(listed[..|listed| - 1]) + listed[|listed| - 1].targetKWh }

  function MeasuredOf(listed: seq<Energy>): int { if listed == [] then 0 else MeasuredOf(listed[..|listed| - 1]) + listed[|listed| - 1].actualWh }

  /** Rounded down plan by plan. */
  function WorthOf(listed: seq<Energy>, price: int): int {
    if listed == [] then 0 else WorthOf(listed[..|listed| - 1], price) + listed[|listed| - 1].actualWh * price / 1000
  }

  /** The totals of the listing, wrapped once; amounts as long as no product overflows. */
  predicate Sums(s: Summary, listed: seq<Energy>, price: int) {
    && s.entryCount == |listed|
    && s.plannedWh == Wrap(1000 * TargetsOf(listed)) && s.actualWh == Wrap(MeasuredOf(listed))
    && s.deviationWh == Wrap(MeasuredOf(listed) - 1000 * TargetsOf(listed))
    && ((forall i :: 0 <= i < |listed| ==> listed[i].actualWh * price < TWO_63) ==> s.amountMilliCent == Wrap(WorthOf(listed, price)))
  }

  lemma {:induction false} ListingTotals(id: Id, listed: seq<Energy>, price: int)
    requires Enterable(id, listed, price)
    ensures var rows := EntryRows(id, listed, price);
            && Planned(rows) == 1000 * TargetsOf(listed) && Actual(rows) == MeasuredOf(listed) && Priced(rows, price)
            && ((forall i :: 0 <= i < |listed| ==> listed[i].actualWh * price < TWO_63) ==> Amount(rows) == WorthOf(listed, price))
  {
    if listed != [] {
      var (n, rows) := (|listed| - 1, EntryRows(id, listed, price));
      ListingTotals(id, listed[..n], price);
      assert rows[..n] == EntryRows(id, listed[..n], price);
      EntryMeasures(id, listed[n], price);
      RowIsPriced(id, listed[n], price);
      hide EntryOf, NewEntry, Wrap;
    }
  }

  lemma RowIsPriced(id: Id, energy: Energy, price: int)
    requires EntryOf(id, energy, price).Ok?
    ensures var e := EntryOf(id, energy, price).value; NewEntry(e.periodId, e.planId, e.plannedWh, e.actualWh, price) == Ok(e)
  {
    hide Blank, Wrap, Truncated;
  }

  lemma TotalsAreSums(id: Id, listed: seq<Energy>, price: int)
    requires Enterable(id, listed, price)
    ensures Sums(Totals(EntryRows(id, listed, price)), listed, price)
  {
    hide Enterable, EntryRows, Priced, Wrap, Planned, Actual, Amount, Deviation, TargetsOf, MeasuredOf, WorthOf;
    ListingTotals(id, listed, price);
    DeviationsAgree(EntryRows(id, listed, price), price);
  }

  predicate Entered(entries: map<Id, Entry>, periodId: Id, planId: Id) {
    exists e | e in entries :: entries[e].periodId == periodId && entries[e].planId == planId
  }

  /** INSERT ... ON CONFLICT(period_id, plan_id) DO NOTHING, one entry after another. */
  function Post(entries: map<Id, Entry>, ids: seq<Id>, rows: seq<Entry>): Option<map<Id, Entry>>
    requires |ids| == |rows|
  {
    if ids == [] then Some(entries)
    else
      var n := |ids| - 1;
      var before := Post(entries, ids[..n], rows[..n]);
      if before.None? then None
      else if Entered(before.value, rows[n].periodId, rows[n].planId) then before
      else if ids[n] in before.value then None
      else Some(before.value[ids[n] := rows[n]])
  }

  // ----- Transactions and calls -----

  predicate PeriodExists(periods: map<Id, Period>, p: Period) {
    exists x | x in periods :: periods[x].siteId == p.siteId && EncodeTime(periods[x].window.start) == EncodeTime(p.window.start)
                               && EncodeTime(periods[x].window.end) == EncodeTime(p.window.end)
  }

  function InsertPeriodTx(b: Books, id: Id, p: Period): Option<Books> {
    if id in b.periods || PeriodExists(b.periods, p) || !SqlLess(p.window.start, p.window.end) then None
    else Some(b.(periods := b.periods[id := p]))
  }

  function CloseTx(b: Books, id: Id, p: Period, expected: int, ids: seq<Id>, rows: seq<Entry>, audited: bool): Option<Books>
    requires |ids| == |rows|
  {
    var posted := Post(b.entries, ids, rows);
    if posted.None? || id !in b.periods || b.periods[id].version != expected || !audited then None
    else
      Some(Books(b.periods[id := b.periods[id].(status := p.status, closedBy := p.closedBy, closedAt := p.closedAt, version := p.version)],
                 posted.value))
  }

  type History = h: seq<Books> | h != [] witness [Books(map[], map[])]

  function Last(h: History): Books { h[|h| - 1] }

  /** The period that Close would store, computed from the row that was read. */
  function Closing(p: Period, c: Command): Result<Period>
    requires c.CalculateAndClose?
  {
    if p.version != c.expected then Err(VERSION_CONFLICT)
    else
      var calculating := p.Begin(c.expected, |c.listed|, |c.listed|, c.now);
      if calculating.Err? then calculating
      else if !Enterable(c.id, c.listed, c.price) then Err(Fault(Invalid, "invalid_entry"))
      else calculating.value.Close(c.actor, calculating.value.version, |c.listed|, |c.listed|, c.now)
  }

  function TryClose(h: History, c: Command): Option<Books>
    requires c.CalculateAndClose?
  {
    if c.at >= |h| || c.id !in h[c.at].periods || !DistinctPlans(c.listed) || |c.entryIds| != |c.listed| then None
    else
      var closed := Closing(h[c.at].periods[c.id], c);
      if closed.Err? then None
      else CloseTx(Last(h), c.id, closed.value, c.expected, c.entryIds, EntryRows(c.id, c.listed, c.price), c.audited)
  }

  function Try(h: History, c: Command): Option<Books> {
    match c
    case CreatePeriod(id, siteId, start, end) =>
      var created := NewPeriod(siteId, start, end);
      if created.Err? then None else InsertPeriodTx(Last(h), id, created.value)
    case CalculateAndClose(_, _, _, _, _, _, _, _, _) => TryClose(h, c)
  }

  function Exec(h: History, c: Command): Books {
    var tx := Try(h, c);
    if tx.Some? then tx.value else Last(h)
  }

  function Run(calls: seq<Command>): (h: History)
    ensures |h| == |calls| + 1
  {
    if calls == [] then [Books(map[], map[])]
    else
      var h := Run(calls[..|calls| - 1]);
      h + [Exec(h, calls[|calls| - 1])]
  }

  /** State k is the outcome of some call on the states before it. */
  ghost predicate IsStep(h: History, k: nat)
    requires 0 < k < |h|
  {
    exists c :: Leads(h[..k], c, h[k])
  }

  predicate Leads(h: History, c: Command, b: Books) { b == Exec(h, c) }

  /** The committed states of some interleaving. */
  ghost predicate IsHistory(h: History) {
    h[0] == Books(map[], map[]) && forall k :: 0 < k < |h| ==> IsStep(h, k)
  }

  // ----- Invariant -----

  /** A stored period is open at version 1 or closed at version 3: `calculating` is never stored. */
  predicate PeriodOk(p: Period) {
    (p.status.Open? && p.version == 1) || (p.status.Closed? && p.version == 3 && !Blank(p.closedBy) && p.closedAt.Some?)
  }

  ghost predicate Inv(b: Books) {
    && (forall p :: p in b.periods ==> PeriodOk(b.periods[p]))
    && (forall e :: e in b.entries ==> b.entries[e].periodId in b.periods && b.periods[b.entries[e].periodId].status.Closed?)
    && (forall d, e :: d in b.entries && e in b.entries && d != e ==>
          b.entries[d].periodId != b.entries[e].periodId || b.entries[d].planId != b.entries[e].planId)
  }

  ghost function EntriesOf(b: Books, id: Id): map<Id, Entry> { map e | e in b.entries && b.entries[e].periodId == id :: b.entries[e] }

  /** Periods stay; a closed one keeps its row and its entries. */
  ghost predicate Follows(a: Books, b: Books) {
    forall p :: p in a.periods ==>
      && p in b.periods
      && (b.periods[p] == a.periods[p] || a.periods[p].version < b.periods[p].version)
      && (a.periods[p].status.Closed? ==> b.periods[p] == a.periods[p] && EntriesOf(b, p) == EntriesOf(a, p))
  }

  ghost predicate HistoryInv(h: History) { forall i :: 0 <= i < |h| ==> Inv(h[i]) && Follows(h[i], Last(h)) }

  // ----- Closing -----

  /** Without entries for these pairs, every row is inserted: the conflict clause never fires. */
  lemma {:induction false} PostAll(entries: map<Id, Entry>, ids: seq<Id>, rows: seq<Entry>)
    requires |ids| == |rows| && Post(entries, ids, rows).Some?
    requires forall i :: 0 <= i < |rows| ==> !Entered(entries, rows[i].periodId, rows[i].planId)
    requires forall i, j :: 0 <= i < j < |rows| ==> rows[i].periodId != rows[j].periodId || rows[i].planId != rows[j].planId
    ensures Post(entries, ids, rows).value == entries + Zip(ids, rows)
    ensures Distinct(ids) && forall i :: 0 <= i < |ids| ==> ids[i] !in entries
  {
    if ids != [] {
      var n := |ids| - 1;
      PostAll(entries, ids[..n], rows[..n]);
      NewPairIsFree(entries, ids[..n], rows[..n], rows[n]);
      hide Entered;
      assert Post(entries, ids[..n], rows[..n]) == Some(entries + Zip(ids[..n], rows[..n]));
      PostNext(entries, ids, rows);
    } else {
      assert entries + Zip(ids, rows) == entries;
    }
  }

  lemma PostNext(entries: map<Id, Entry>, ids: seq<Id>, rows: seq<Entry>)
    requires |ids| == |rows| > 0 && Distinct(ids[..|ids| - 1]) && forall i :: 0 <= i < |ids| - 1 ==> ids[i] !in entries
    requires ids[|ids| - 1] !in entries + Zip(ids[..|ids| - 1], rows[..|ids| - 1])
    ensures entries + Zip(ids, rows) == (entries + Zip(ids[..|ids| - 1], rows[..|ids| - 1]))[ids[|ids| - 1] := rows[|ids| - 1]]
    ensures Distinct(ids) && forall i :: 0 <= i < |ids| ==> ids[i] !in entries
  {
    ZipExtends(entries, ids, rows);
    hide Zip;
    var n := |ids| - 1;
    forall i | 0 <= i < n ensures ids[i] != ids[n] {
      assert ids[..n][i] == ids[i] && ids[i] in Zip(ids[..n], rows[..n]).Keys;
    }
    DistinctGrows(ids);
  }

  lemma DistinctGrows(ids: seq<Id>)
    requires ids != [] && Distinct(ids[..|ids| - 1]) && forall i :: 0 <= i < |ids| - 1 ==> ids[i] != ids[|ids| - 1]
    ensures Distinct(ids)
  {
    forall i, j | 0 <= i < j < |ids| ensures ids[i] != ids[j] {
      if j < |ids| - 1 { assert ids[..|ids| - 1][i] != ids[..|ids| - 1][j]; }
    }
  }

  lemma NewPairIsFree(entries: map<Id, Entry>, ids: seq<Id>, rows: seq<Entry>, row: Entry)
    requires |ids| == |rows| && Distinct(ids) && !Entered(entries, row.periodId, row.planId)
    requires forall i :: 0 <= i < |rows| ==> rows[i].periodId != row.periodId || rows[i].planId != row.planId
    ensures !Entered(entries + Zip(ids, rows), row.periodId, row.planId)
  {
    var all := entries + Zip(ids, rows);
    forall e | e in all ensures all[e].periodId != row.periodId || all[e].planId != row.planId {
      if e in Zip(ids, rows) {
        var i :| 0 <= i < |ids| && ids[i] == e;
        assert Zip(ids, rows)[ids[i]] == rows[i];
      }
    }
  }

  lemma RowsOfListing(id: Id, listed: seq<Energy>, price: int)
    requires Enterable(id, listed, price) && DistinctPlans(listed)
    ensures var rows := EntryRows(id, listed, price);
            && (forall i :: 0 <= i < |rows| ==> rows[i].periodId == id && rows[i].planId == listed[i].planId)
            && (forall i, j :: 0 <= i < j < |rows| ==> rows[i].planId != rows[j].planId)
  {
    hide Wrap, Truncated;
    forall i | 0 <= i < |listed| ensures EntryOf(id, listed[i], price).value.planId == listed[i].planId { }
  }

  lemma ClosingMeans(p: Period, c: Command)
    requires c.CalculateAndClose? && Closing(p, c).Ok?
    ensures p.status.Open? && p.version == c.expected && c.listed != [] && Enterable(c.id, c.listed, c.price) && p.window.end <= c.now
    ensures Closing(p, c).value == p.(status := Closed, closedBy := c.actor, closedAt := Some(c.now), version := p.version + 2)
    ensures !Blank(c.actor)
  {
    hide Blank, Enterable;
  }

  /** What a committed closing does: it meets the open row it read, and inserts exactly its own list. */
  lemma CloseWrites(h: History, c: Command)
    requires HistoryInv(h) && c.CalculateAndClose? && TryClose(h, c).Some?
    ensures c.id in Last(h).periods && Last(h).periods[c.id].status.Open? && Closing(Last(h).periods[c.id], c).Ok?
    ensures Enterable(c.id, c.listed, c.price) && |c.entryIds| == |c.listed| > 0 && Distinct(c.entryIds) && DistinctPlans(c.listed)
    ensures forall i :: 0 <= i < |c.entryIds| ==> c.entryIds[i] !in Last(h).entries
    ensures TryClose(h, c) == Some(Books(Last(h).periods[c.id := Closing(Last(h).periods[c.id], c).value],
                                         Last(h).entries + Zip(c.entryIds, EntryRows(c.id, c.listed, c.price))))
  {
    var (a, p) := (Last(h), h[c.at].periods[c.id]);
    ClosingMeans(p, c);
    CloseMeetsReadRow(h, c);
    hide HistoryInv, Closing;
    RowsOfListing(c.id, c.listed, c.price);
    OpenPeriodsHaveNoEntries(a, c.id);
    var rows := EntryRows(c.id, c.listed, c.price);
    forall i | 0 <= i < |rows| ensures !Entered(a.entries, rows[i].periodId, rows[i].planId) { }
    hide Entered, EntryRows, Inv, Post, DistinctPlans, Enterable;
    PostAll(a.entries, c.entryIds, rows);
  }

  lemma OpenPeriodsHaveNoEntries(b: Books, id: Id)
    requires Inv(b) && id in b.periods && b.periods[id].status.Open?
    ensures forall e :: e in b.entries ==> b.entries[e].periodId != id
  {
  }

  lemma CloseMeetsReadRow(h: History, c: Command)
    requires HistoryInv(h) && c.CalculateAndClose? && TryClose(h, c).Some?
    ensures c.at < |h| && c.id in h[c.at].periods && Closing(h[c.at].periods[c.id], c).Ok?
    ensures c.id in Last(h).periods && Last(h).periods[c.id] == h[c.at].periods[c.id] && Inv(Last(h))
  {
    ClosingMeans(h[c.at].periods[c.id], c);
    hide Closing, Post, Enterable, EntryRows;
    assert Follows(h[c.at], Last(h));
    assert Last(h).periods[c.id].version == c.expected;
  }

  ghost function ClosedBooks(a: Books, id: Id, p: Period, ids: seq<Id>, rows: seq<Entry>): Books
    requires |ids| == |rows|
  {
    Books(a.periods[id := p], a.entries + Zip(ids, rows))
  }

  /** The rows of one period, under new identifiers. */
  ghost predicate NewRows(a: Books, id: Id, ids: seq<Id>, rows: seq<Entry>) {
    && |ids| == |rows| && Distinct(ids)
    && (forall i :: 0 <= i < |ids| ==> ids[i] !in a.entries && rows[i].periodId == id)
    && (forall i, j :: 0 <= i < j < |rows| ==> rows[i].planId != rows[j].planId)
  }

  lemma ZippedRow(ids: seq<Id>, rows: seq<Entry>, e: Id)
    requires |ids| == |rows| && Distinct(ids) && e in Zip(ids, rows)
    ensures exists i :: 0 <= i < |ids| && ids[i] == e && Zip(ids, rows)[e] == rows[i]
  {
    var i :| 0 <= i < |ids| && ids[i] == e;
    assert Zip(ids, rows)[ids[i]] == rows[i];
  }

  lemma ClosedBooksAreSound(a: Books, id: Id, p: Period, ids: seq<Id>, rows: seq<Entry>)
    requires Inv(a) && id in a.periods && a.periods[id].status.Open? && p.status.Closed? && PeriodOk(p) && NewRows(a, id, ids, rows)
    ensures Inv(ClosedBooks(a, id, p, ids, rows))
  {
    OpenPeriodsHaveNoEntries(a, id);
    ZippedRowsDiffer(a, id, ids, rows);
    AddedEntriesAreClosed(a, id, p, Zip(ids, rows));
    EntriesDiffer(a);
    hide Zip, NewRows, Inv;
    AddedEntriesDiffer(a.entries, Zip(ids, rows), id);
    SoundBooks(ClosedBooks(a, id, p, ids, rows));
  }

  lemma EntriesDiffer(a: Books)
    requires Inv(a)
    ensures forall d, e :: d in a.entries && e in a.entries && d != e ==>
              a.entries[d].periodId != a.entries[e].periodId || a.entries[d].planId != a.entries[e].planId
  {
  }

  lemma SoundBooks(b: Books)
    requires forall p :: p in b.periods ==> PeriodOk(b.periods[p])
    requires forall e :: e in b.entries ==> b.entries[e].periodId in b.periods && b.periods[b.entries[e].periodId].status.Closed?
    requires forall d, e :: d in b.entries && e in b.entries && d != e ==>
               b.entries[d].periodId != b.entries[e].periodId || b.entries[d].planId != b.entries[e].planId
    ensures Inv(b)
  {
  }

  lemma AddedEntriesAreClosed(a: Books, id: Id, p: Period, added: map<Id, Entry>)
    requires Inv(a) && id in a.periods && p.status.Closed? && PeriodOk(p) && forall e :: e in added ==> added[e].periodId == id
    ensures var (periods, all) := (a.periods[id := p], a.entries + added);
            && (forall q :: q in periods ==> PeriodOk(periods[q]))
            && forall e :: e in all ==> all[e].periodId in periods && periods[all[e].periodId].status.Closed?
  {
  }

  lemma AddedEntriesDiffer(entries: map<Id, Entry>, added: map<Id, Entry>, id: Id)
    requires forall e :: e in entries ==> entries[e].periodId != id
    requires forall e :: e in added ==> added[e].periodId == id && e !in entries
    requires forall d, e :: d in entries && e in entries && d != e ==>
               entries[d].periodId != entries[e].periodId || entries[d].planId != entries[e].planId
    requires forall d, e :: d in added && e in added && d != e ==> added[d].planId != added[e].planId
    ensures var all := entries + added;
            forall d, e :: d in all && e in all && d != e ==> all[d].periodId != all[e].periodId || all[d].planId != all[e].planId
  {
  }

  lemma ZippedRowsDiffer(a: Books, id: Id, ids: seq<Id>, rows: seq<Entry>)
    requires NewRows(a, id, ids, rows)
    ensures forall e :: e in Zip(ids, rows) ==> Zip(ids, rows)[e].periodId == id && e !in a.entries
    ensures forall d, e :: d in Zip(ids, rows) && e in Zip(ids, rows) && d != e ==> Zip(ids, rows)[d].planId != Zip(ids, rows)[e].planId
  {
    hide Zip;
    forall e | e in Zip(ids, rows) ensures Zip(ids, rows)[e].periodId == id && e !in a.entries { ZippedRow(ids, rows, e); }
    forall d, e | d in Zip(ids, rows) && e in Zip(ids, rows) && d != e ensures Zip(ids, rows)[d].planId != Zip(ids, rows)[e].planId {
      ZippedRow(ids, rows, d);
      ZippedRow(ids, rows, e);
    }
  }

  lemma ClosedBooksFollow(a: Books, id: Id, p: Period, ids: seq<Id>, rows: seq<Entry>)
    requires Inv(a) && id in a.periods && a.periods[id].status.Open? && a.periods[id].version < p.version && NewRows(a, id, ids, rows)
    ensures Follows(a, ClosedBooks(a, id, p, ids, rows))
    ensures EntriesOf(ClosedBooks(a, id, p, ids, rows), id) == Zip(ids, rows)
  {
    OpenPeriodsHaveNoEntries(a, id);
    ZippedRowsDiffer(a, id, ids, rows);
    hide Zip, NewRows, Inv;
    var (b, added) := (ClosedBooks(a, id, p, ids, rows), Zip(ids, rows));
    forall q | q in a.periods && q != id ensures EntriesOf(b, q) == EntriesOf(a, q) {
      OtherEntries(a.entries, added, id, q, a, b);
    }
    TheseEntries(a.entries, added, id, b);
    hide EntriesOf;
  }

  lemma TheseEntries(entries: map<Id, Entry>, added: map<Id, Entry>, id: Id, b: Books)
    requires b.entries == entries + added
    requires forall e :: e in entries ==> entries[e].periodId != id
    requires forall e :: e in added ==> added[e].periodId == id && e !in entries
    ensures EntriesOf(b, id) == added
  {
    OnlyTheseEntries(entries, added, id);
  }

  lemma OnlyTheseEntries(entries: map<Id, Entry>, added: map<Id, Entry>, id: Id)
    requires forall e :: e in entries ==> entries[e].periodId != id
    requires forall e :: e in added ==> added[e].periodId == id && e !in entries
    ensures forall e :: e in entries + added && (entries + added)[e].periodId == id <==> e in added
    ensures forall e :: e in added ==> (entries + added)[e] == added[e]
  {
  }

  lemma OtherEntries(entries: map<Id, Entry>, added: map<Id, Entry>, id: Id, q: Id, a: Books, b: Books)
    requires a.entries == entries && b.entries == entries + added && q != id
    requires forall e :: e in added ==> added[e].periodId == id && e !in entries
    ensures EntriesOf(b, q) == EntriesOf(a, q)
  {
  }

  lemma CloseKeeps(h: History, c: Command)
    requires HistoryInv(h) && c.CalculateAndClose? && TryClose(h, c).Some?
    ensures Inv(TryClose(h, c).value) && Follows(Last(h), TryClose(h, c).value)
    ensures Enterable(c.id, c.listed, c.price) && |c.entryIds| == |c.listed|
    ensures EntriesOf(TryClose(h, c).value, c.id) == Zip(c.entryIds, EntryRows(c.id, c.listed, c.price))
    ensures c.id in TryClose(h, c).value.periods && TryClose(h, c).value.periods[c.id].status.Closed?
  {
    CloseWrites(h, c);
    CloseMeetsReadRow(h, c);
    var (a, rows) := (Last(h), EntryRows(c.id, c.listed, c.price));
    var p := Closing(a.periods[c.id], c).value;
    ClosingMeans(a.periods[c.id], c);
    RowsOfListing(c.id, c.listed, c.price);
    assert PeriodOk(a.periods[c.id]);
    hide HistoryInv, TryClose, Closing, Inv, Follows, EntryRows, Zip, EntriesOf, Enterable, DistinctPlans;
    ClosedBooksAreSound(a, c.id, p, c.entryIds, rows);
    ClosedBooksFollow(a, c.id, p, c.entryIds, rows);
  }

  // ----- Runs -----

  lemma CreateKeeps(a: Books, id: Id, p: Period)
    requires Inv(a) && id !in a.periods && PeriodOk(p)
    ensures Inv(a.(periods := a.periods[id := p])) && Follows(a, a.(periods := a.periods[id := p]))
  {
    forall q | q in a.periods ensures EntriesOf(a.(periods := a.periods[id := p]), q) == EntriesOf(a, q) { }
  }

  lemma FollowsIsTransitive(a: Books, b: Books, c: Books)
    requires Follows(a, b) && Follows(b, c)
    ensures Follows(a, c) && Follows(c, c)
  {
    hide EntriesOf;
  }

  lemma ExecKeeps(h: History, c: Command)
    requires HistoryInv(h)
    ensures Inv(Exec(h, c)) && Follows(Last(h), Exec(h, c))
  {
    assert Inv(Last(h)) && Follows(Last(h), Last(h));
    hide Inv, Follows, TryClose, PeriodExists;
    if Try(h, c).Some? {
      match c
      case CreatePeriod(id, siteId, start, end) => CreateKeeps(Last(h), id, NewPeriod(siteId, start, end).value);
      case CalculateAndClose(_, _, _, _, _, _, _, _, _) => CloseKeeps(h, c);
    }
  }

  lemma HistoryGrows(h: History, b: Books)
    requires HistoryInv(h) && Inv(b) && Follows(Last(h), b)
    ensures HistoryInv(h + [b])
  {
    hide Inv, Follows;
    forall i | 0 <= i < |h| ensures Follows(h[i], b) && Follows(b, b) {
      FollowsIsTransitive(h[i], Last(h), b);
    }
  }

  lemma StepBy(h: History, k: nat) returns (c: Command)
    requires IsHistory(h) && 0 < k < |h|
    ensures h[k] == Exec(h[..k], c)
  {
    hide Exec;
    assert IsStep(h, k);
    c :| Leads(h[..k], c, h[k]);
  }

  lemma HistoryPrefix(h: History, n: nat)
    requires IsHistory(h) && 0 < n <= |h|
    ensures IsHistory(h[..n])
  {
    hide Exec;
    var a: History := h[..n];
    forall k | 0 < k < n ensures IsStep(a, k) {
      assert a[..k] == h[..k];
      var c := StepBy(h, k);
      assert Leads(a[..k], c, a[k]);
    }
  }

  lemma {:induction false} HistoryIsSound(h: History)
    requires IsHistory(h)
    ensures HistoryInv(h)
  {
    var n := |h| - 1;
    if n == 0 {
      assert h == [Books(map[], map[])];
    } else {
      hide HistoryInv, Exec;
      HistoryPrefix(h, n);
      hide IsHistory;
      HistoryIsSound(h[..n]);
      HistorySoundNext(h, n);
    }
  }

  lemma HistorySoundNext(h: History, n: nat)
    requires IsHistory(h) && 0 < n == |h| - 1 && HistoryInv(h[..n])
    ensures HistoryInv(h)
  {
    hide HistoryInv, Exec, IsHistory, Inv, Follows;
    var c := StepBy(h, n);
    ExecKeeps(h[..n], c);
    HistoryGrows(h[..n], h[n]);
    assert h == h[..n] + [h[n]];
  }

  lemma {:induction false} RunIsHistory(calls: seq<Command>)
    ensures IsHistory(Run(calls))
  {
    if calls != [] {
      var n := |calls| - 1;
      RunIsHistory(calls[..n]);
      hide Exec;
      ExtendIsHistory(Run(calls[..n]), calls[n]);
    }
  }

  lemma ExtendIsHistory(h: History, c: Command)
    requires IsHistory(h)
    ensures IsHistory(h + [Exec(h, c)])
  {
    hide Exec;
    var a: History := h + [Exec(h, c)];
    forall k | 0 < k < |a| ensures IsStep(a, k) {
      assert a[..k] == h[..k];
      if k < |h| {
        var d := StepBy(h, k);
        assert Leads(a[..k], d, a[k]);
      } else {
        assert h[..k] == h;
        assert Leads(a[..k], c, a[k]);
      }
    }
  }

  lemma RunIsSound(calls: seq<Command>)
    ensures HistoryInv(Run(calls))
  {
    hide Run, IsHistory, HistoryInv;
    RunIsHistory(calls);
    HistoryIsSound(Run(calls));
  }

  /** A closed period is frozen: neither its row nor its entries ever change again. */
  lemma ClosedPeriodsAreFrozen(h: History, i: nat, k: nat, id: Id)
    requires IsHistory(h) && i <= k < |h| && id in h[i].periods && h[i].periods[id].status.Closed?
    ensures id in h[k].periods && h[k].periods[id] == h[i].periods[id]
    ensures EntriesOf(h[k], id) == EntriesOf(h[i], id)
  {
    hide *;
    FollowsAt(h, i, k);
    ClosedStays(h[i], h[k], id);
  }

  lemma FollowsAt(h: History, i: nat, k: nat)
    requires IsHistory(h) && i <= k < |h|
    ensures Follows(h[i], h[k]) && Inv(h[k])
  {
    hide Inv, Follows, IsHistory;
    HistoryPrefix(h, k + 1);
    HistoryIsSound(h[..k + 1]);
    assert h[..k + 1][i] == h[i] && h[..k + 1][k] == h[k];
  }

  lemma ClosedStays(a: Books, b: Books, id: Id)
    requires Follows(a, b) && id in a.periods && a.periods[id].status.Closed?
    ensures id in b.periods && b.periods[id] == a.periods[id] && EntriesOf(b, id) == EntriesOf(a, id)
  {
    hide EntriesOf;
  }

  /** The loser of a race changes nothing: its entries are rolled back with it. */
  lemma LosersChangeNothing(h: History, c: Command)
    requires IsHistory(h) && c.CalculateAndClose? && c.id in Last(h).periods && Last(h).periods[c.id].status.Closed?
    ensures Exec(h, c) == Last(h)
  {
    hide IsHistory, HistoryInv, TryClose;
    HistoryIsSound(h);
    if TryClose(h, c).Some? {
      CloseWrites(h, c);
    }
  }

  /**
   * A closing that commits takes an open period without entries to a closed one whose
   * entries are exactly its computed list, one for each listed plan.
   */
  lemma WinnersListIsStored(h: History, c: Command)
    requires IsHistory(h) && c.CalculateAndClose? && TryClose(h, c).Some?
    ensures c.id in Last(h).periods && Last(h).periods[c.id].status.Open? && EntriesOf(Last(h), c.id) == map[]
    ensures Exec(h, c) == TryClose(h, c).value && c.id in Exec(h, c).periods && Exec(h, c).periods[c.id].status.Closed?
    ensures Enterable(c.id, c.listed, c.price) && |c.entryIds| == |c.listed|
    ensures EntriesOf(Exec(h, c), c.id) == Zip(c.entryIds, EntryRows(c.id, c.listed, c.price))
    ensures forall i :: 0 <= i < |c.listed| ==> OneEntryFor(Exec(h, c), c.id, c.listed[i].planId) && EntryStored(Exec(h, c), c.id, c.listed[i], c.price)
    ensures var p := Last(h).periods[c.id];
            && p.version == c.expected && p.window.end <= c.now && c.listed != [] && !Blank(c.actor)
            && Exec(h, c).periods == Last(h).periods[c.id := p.(status := Closed, closedBy := c.actor, closedAt := Some(c.now), version := p.version + 2)]
  {
    hide IsHistory, HistoryInv, TryClose, Inv, EntriesOf, EntryRows, Enterable, Zip, OneEntryFor, EntryStored, Closing;
    HistoryIsSound(h);
    CloseWrites(h, c);
    ClosingMeans(Last(h).periods[c.id], c);
    CloseKeeps(h, c);
    CloseMeetsReadRow(h, c);
    OpenOrClosed(Last(h), c.id);
    TryIs(h, c);
    hide Exec, Try;
    ListIsStored(Exec(h, c), c.id, c.listed, c.price, c.entryIds);
  }

  lemma ListIsStored(b: Books, id: Id, listed: seq<Energy>, price: int, ids: seq<Id>)
    requires Inv(b) && Enterable(id, listed, price) && DistinctPlans(listed) && |ids| == |listed| && Distinct(ids)
    requires EntriesOf(b, id) == Zip(ids, EntryRows(id, listed, price))
    ensures forall i :: 0 <= i < |listed| ==> OneEntryFor(b, id, listed[i].planId) && EntryStored(b, id, listed[i], price)
  {
    RowsOfListing(id, listed, price);
    RowsMeasure(id, listed, price);
    hide Inv, EntriesOf, EntryRows, Enterable, Zip, OneEntryFor, Measures, EntryStored, EntryOf, Settleable;
    forall i | 0 <= i < |listed| ensures OneEntryFor(b, id, listed[i].planId) && EntryStored(b, id, listed[i], price) {
      ListedOnce(b, id, ids, EntryRows(id, listed, price), i);
      MeasuredEntry(b, id, ids, EntryRows(id, listed, price), i, listed[i], price);
    }
  }

  lemma MeasuredEntry(b: Books, id: Id, ids: seq<Id>, rows: seq<Entry>, i: nat, energy: Energy, price: int)
    requires |ids| == |rows| && Distinct(ids) && EntriesOf(b, id) == Zip(ids, rows) && i < |rows|
    requires rows[i].periodId == id && Measures(rows[i], energy, price)
    ensures EntryStored(b, id, energy, price)
  {
    assert ids[i] in Zip(ids, rows) && Zip(ids, rows)[ids[i]] == rows[i];
    assert ids[i] in EntriesOf(b, id) && b.entries[ids[i]] == rows[i];
    MeasuresPlan(rows[i], energy, price);
    hide Measures;
    assert IsEntryFor(b, ids[i], id, energy.planId);
  }

  lemma MeasuresPlan(e: Entry, energy: Energy, price: int)
    requires Measures(e, energy, price)
    ensures e.planId == energy.planId
  {
  }

  /** The plan has an entry of the period that measures it. */
  ghost predicate EntryStored(b: Books, id: Id, energy: Energy, price: int) {
    exists e :: IsEntryFor(b, e, id, energy.planId) && Measures(b.entries[e], energy, price)
  }

  ghost predicate IsEntryFor(b: Books, e: Id, id: Id, planId: Id) {
    e in b.entries && b.entries[e].periodId == id && b.entries[e].planId == planId
  }

  ghost predicate OneEntryFor(b: Books, id: Id, planId: Id) {
    && (exists e :: IsEntryFor(b, e, id, planId))
    && (forall d, e :: IsEntryFor(b, d, id, planId) && IsEntryFor(b, e, id, planId) ==> d == e)
  }

  lemma ListedOnce(b: Books, id: Id, ids: seq<Id>, rows: seq<Entry>, i: nat)
    requires Inv(b) && |ids| == |rows| && Distinct(ids) && EntriesOf(b, id) == Zip(ids, rows) && i < |rows|
    ensures OneEntryFor(b, id, rows[i].planId)
  {
    assert ids[i] in Zip(ids, rows) && Zip(ids, rows)[ids[i]] == rows[i];
    assert ids[i] in EntriesOf(b, id);
    assert IsEntryFor(b, ids[i], id, rows[i].planId);
  }

  /** Over a history a period is closed at most once. */
  lemma PeriodsCloseOnce(h: History, i: nat, c: Command, d: Command)
    requires IsHistory(h) && i + 1 < |h| && c.CalculateAndClose? && d.CalculateAndClose? && c.id == d.id
    requires TryClose(h[..i + 1], c) == Some(h[i + 1])
    ensures Exec(h, d) == Last(h)
  {
    hide IsHistory, TryClose, EntriesOf, Exec;
    ClosedAfter(h, i, c);
    ClosedPeriodsAreFrozen(h, i + 1, |h| - 1, c.id);
    LosersChangeNothing(h, d);
  }

  lemma ClosedAfter(h: History, i: nat, c: Command)
    requires IsHistory(h) && i + 1 < |h| && c.CalculateAndClose? && TryClose(h[..i + 1], c) == Some(h[i + 1])
    ensures c.id in h[i + 1].periods && h[i + 1].periods[c.id].status.Closed?
  {
    hide IsHistory, HistoryInv, TryClose, EntriesOf, EntryRows, Enterable, Zip;
    HistoryPrefix(h, i + 1);
    HistoryIsSound(h[..i + 1]);
    CloseKeeps(h[..i + 1], c);
  }

  /** `calculating` is never stored, and an open period has no entries yet. */
  lemma PeriodsAreOpenOrClosed(h: History, k: nat, id: Id)
    requires IsHistory(h) && k < |h| && id in h[k].periods
    ensures PeriodOk(h[k].periods[id])
    ensures h[k].periods[id].status.Open? ==> EntriesOf(h[k], id) == map[]
  {
    hide *;
    FollowsAt(h, k, k);
    OpenOrClosed(h[k], id);
  }

  lemma OpenOrClosed(b: Books, id: Id)
    requires Inv(b) && id in b.periods
    ensures PeriodOk(b.periods[id]) && (b.periods[id].status.Open? ==> EntriesOf(b, id) == map[])
  {
    if b.periods[id].status.Open? { OpenPeriodsHaveNoEntries(b, id); }
  }

  /** This call, on these states, closed the period with exactly these entries. */
  ghost predicate Won(h: History, c: Command, id: Id, entries: map<Id, Entry>) {
    && c.CalculateAndClose? && c.id == id && TryClose(h, c).Some?
    && Enterable(id, c.listed, c.price) && |c.entryIds| == |c.listed|
    && entries == Zip(c.entryIds, EntryRows(id, c.listed, c.price))
    && entries.Keys == (set e | e in c.entryIds)
    && forall i :: 0 <= i < |c.listed| ==> MeasuredAt(entries, c.entryIds[i], id, c.listed[i], c.price)
  }

  ghost predicate MeasuredAt(entries: map<Id, Entry>, e: Id, id: Id, energy: Energy, price: int) {
    e in entries && entries[e].periodId == id && Measures(entries[e], energy, price)
  }

  /** The entries of a closed period are always the list computed by the one call that closed it. */
  lemma {:induction false} ClosedPeriodsHaveAWinner(h: History, k: nat, id: Id)
    requires IsHistory(h) && k < |h| && id in h[k].periods && h[k].periods[id].status.Closed?
    ensures exists j, c :: 0 < j <= k && Won(h[..j], c, id, EntriesOf(h[k], id)) && h[j] == Exec(h[..j], c)
    decreases k
  {
    assert h[0] == Books(map[], map[]);
    hide EntriesOf, TryClose, Exec, Won, IsHistory;
    if k > 0 {
      if id in h[k - 1].periods && h[k - 1].periods[id].status.Closed? {
        ClosedPeriodsHaveAWinner(h, k - 1, id);
        ClosedPeriodsAreFrozen(h, k - 1, k, id);
      } else {
        var c := ClosedByThisCall(h, k, id);
      }
    }
  }

  lemma ClosedByThisCall(h: History, k: nat, id: Id) returns (c: Command)
    requires IsHistory(h) && 0 < k < |h| && id in h[k].periods && h[k].periods[id].status.Closed?
    requires id in h[k - 1].periods ==> !h[k - 1].periods[id].status.Closed?
    ensures Won(h[..k], c, id, EntriesOf(h[k], id)) && h[k] == Exec(h[..k], c)
  {
    hide IsHistory, TryClose, EntriesOf, HistoryInv;
    c := StepBy(h, k);
    HistoryPrefix(h, k);
    HistoryIsSound(h[..k]);
    assert Last(h[..k]) == h[k - 1];
    OnlyClosingCloses(h[..k], c, id);
    hide Exec;
    WinnersListIsStored(h[..k], c);
    CloseWrites(h[..k], c);
    hide *;
    RowsMeasure(id, c.listed, c.price);
    RowsAreMeasured(c.entryIds, EntryRows(id, c.listed, c.price), id, c.listed, c.price);
    WonBy(h[..k], c, id, EntriesOf(h[k], id));
  }

  lemma WonBy(h: History, c: Command, id: Id, entries: map<Id, Entry>)
    requires c.CalculateAndClose? && c.id == id && TryClose(h, c).Some? && Enterable(id, c.listed, c.price) && |c.entryIds| == |c.listed|
    requires entries == Zip(c.entryIds, EntryRows(id, c.listed, c.price))
    requires forall i :: 0 <= i < |c.listed| ==> MeasuredAt(entries, c.entryIds[i], id, c.listed[i], c.price)
    ensures Won(h, c, id, entries)
  {
    hide TryClose, Enterable, EntryRows, MeasuredAt;
  }

  lemma RowsAreMeasured(ids: seq<Id>, rows: seq<Entry>, id: Id, listed: seq<Energy>, price: int)
    requires |ids| == |rows| == |listed| && Distinct(ids)
    requires forall i :: 0 <= i < |listed| ==> rows[i].periodId == id && Measures(rows[i], listed[i], price)
    ensures forall i :: 0 <= i < |listed| ==> MeasuredAt(Zip(ids, rows), ids[i], id, listed[i], price)
  {
    hide Measures;
  }

  lemma OnlyClosingCloses(h: History, c: Command, id: Id)
    requires HistoryInv(h) && id in Exec(h, c).periods && Exec(h, c).periods[id].status.Closed?
    requires id in Last(h).periods ==> !Last(h).periods[id].status.Closed?
    ensures c.CalculateAndClose? && c.id == id && TryClose(h, c).Some?
  {
    hide HistoryInv, TryClose, PeriodExists;
    if c.CalculateAndClose? && TryClose(h, c).Some? {
      CloseWrites(h, c);
    }
  }

  // ----- Calls that are not disturbed -----

  lemma {:induction false} PostSucceeds(entries: map<Id, Entry>, ids: seq<Id>, rows: seq<Entry>)
    requires |ids| == |rows| && Distinct(ids) && forall i :: 0 <= i < |ids| ==> ids[i] !in entries
    ensures Post(entries, ids, rows).Some?
    ensures forall e :: e in Post(entries, ids, rows).value ==> e in entries || e in ids
  {
    if ids != [] {
      var n := |ids| - 1;
      PostSucceeds(entries, ids[..n], rows[..n]);
      assert ids[n] !in ids[..n];
      assert forall e :: e in ids[..n] ==> e in ids;
      hide Entered;
    }
  }

  lemma ClosingIff(p: Period, c: Command)
    requires c.CalculateAndClose?
    ensures Closing(p, c).Ok? <==>
              && p.status.Open? && p.version == c.expected && p.window.end <= c.now && c.listed != []
              && Enterable(c.id, c.listed, c.price) && !Blank(c.actor)
  {
    hide Blank, Enterable;
  }

  /**
   * A closing that nobody disturbs, under fresh identifiers, commits exactly for an open
   * period at the expected version that has ended, by a named actor, for a listing that
   * is not empty and can be settled.
   */
  lemma CloseCommitsIff(h: History, c: Command)
    requires IsHistory(h) && c.CalculateAndClose? && c.at == |h| - 1 && |c.entryIds| == |c.listed| && DistinctPlans(c.listed)
    requires Distinct(c.entryIds) && forall i :: 0 <= i < |c.entryIds| ==> c.entryIds[i] !in Last(h).entries
    ensures TryClose(h, c).Some? <==>
              && c.id in Last(h).periods && !Blank(c.actor) && c.audited && c.listed != []
              && (forall i :: 0 <= i < |c.listed| ==> Settleable(c.id, c.listed[i], c.price))
              && var p := Last(h).periods[c.id]; p.status.Open? && p.version == c.expected && p.window.end <= c.now
  {
    EnterableIff(c.id, c.listed, c.price);
    if c.id in Last(h).periods {
      ClosingIff(Last(h).periods[c.id], c);
    }
    hide IsHistory, Closing, Enterable, Settleable, Blank, DistinctPlans, EntryRows, Post;
    if Enterable(c.id, c.listed, c.price) {
      PostSucceeds(Last(h).entries, c.entryIds, EntryRows(c.id, c.listed, c.price));
    }
  }

  /** A period is created exactly for a named site, over an hour to 366 days, if its window orders as text and is new. */
  lemma CreatePeriodIff(h: History, c: Command)
    requires c.CreatePeriod?
    ensures Try(h, c).Some? <==>
              && !Blank(c.siteId) && HOUR <= c.end - c.start <= 366 * DAY && SqlLess(c.start, c.end)
              && c.id !in Last(h).periods && forall x :: x in Last(h).periods && Last(h).periods[x].siteId == c.siteId ==>
                   Texts(Last(h).periods[x].window) != Texts(Window(c.start, c.end))
    ensures Try(h, c).Some? ==>
              Exec(h, c) == Last(h).(periods := Last(h).periods[c.id := Period(c.siteId, Window(c.start, c.end), Open, "", None, 1)])
  {
    hide Blank, SqlLess, EncodeTime;
  }

  function Texts(w: Window): (string, string) { (EncodeTime(w.start), EncodeTime(w.end)) }

  // ----- The store and the service -----

  class Ledger {
    var books: Books
    var history: History
    ghost var calls: seq<Command>

    ghost predicate Valid()
      reads this
    {
      history == Run(calls) && books == Last(history)
    }

    constructor ()
      ensures Valid() && calls == []
    {
      books := Books(map[], map[]);
      history := [Books(map[], map[])];
      calls := [];
    }

    method Executed(ghost c: Command)
      requires history == Run(calls) && books == Exec(history, c)
      modifies this`history, this`calls
      ensures Valid() && calls == old(calls) + [c] && history == old(history) + [books]
    {
      hide Exec;
      assert (calls + [c])[..|calls|] == calls;
      history := history + [books];
      calls := calls + [c];
    }

    /** Any number of other calls. */
    method Interfere()
      requires Valid()
      modifies this
      ensures Valid() && old(calls) <= calls && old(history) <= history
    {
      hide Run, Exec;
      var others: seq<Command> := *;
      for i := 0 to |others|
        invariant Valid() && old(calls) <= calls && old(history) <= history
      {
        books := Exec(history, others[i]);
        Executed(others[i]);
      }
    }

    /** Entry by entry, then the guarded period row, then the audit event; all or nothing. */
    method InsertEntriesAtomic(id: Id, p: Period, expected: int, ids: seq<Id>, rows: seq<Entry>, audited: bool) returns (refused: Option<Fault>)
      requires |ids| == |rows|
      modifies this`books
      ensures books == (if CloseTx(old(books), id, p, expected, ids, rows, audited).Some?
                        then CloseTx(old(books), id, p, expected, ids, rows, audited).value else old(books))
      ensures refused.None? <==> CloseTx(old(books), id, p, expected, ids, rows, audited).Some?
    {
      var entries := books.entries;
      for i := 0 to |rows|
        invariant Post(books.entries, ids[..i], rows[..i]) == Some(entries)
      {
        assert ids[..i + 1][..i] == ids[..i] && rows[..i + 1][..i] == rows[..i];
        if !Entered(entries, rows[i].periodId, rows[i].planId) {
          if ids[i] in entries {
            PostStops(books.entries, ids, rows, i + 1);
            return Some(CONSTRAINT);
          }
          entries := entries[ids[i] := rows[i]];
        }
      }
      assert ids[..|rows|] == ids && rows[..|rows|] == rows;
      if id !in books.periods || books.periods[id].version != expected {
        return Some(VERSION_CONFLICT);
      }
      if !audited {
        return Some(WRITE_FAILED);
      }
      var row := books.periods[id];
      books := Books(books.periods[id := row.(status := p.status, closedBy := p.closedBy, closedAt := p.closedAt, version := p.version)], entries);
      refused := None;
    }

    /** CalculateAndClose: the period and the listing are read, the entries computed, and all of it written in one guarded transaction. */
    method CalculateAndClose(actor: Id, id: Id, expected: int, price: int, listed: seq<Energy>, entryIds: seq<Id>, now: Instant, audited: bool)
      returns (outcome: Result<(Period, Summary)>, ghost before: seq<Command>, ghost c: Command)
      requires Valid() && DistinctPlans(listed) && |entryIds| == |listed|
      modifies this
      ensures Valid() && old(calls) <= before && calls == before + [c]
      ensures c.CalculateAndClose? && c == Command.CalculateAndClose(actor, id, expected, price, listed, entryIds, now, c.at, audited)
      ensures |old(calls)| <= c.at <= |before|
      ensures outcome.Ok? <==> Try(Run(before), c).Some?
      ensures outcome.Ok? ==> id in books.periods && books.periods[id] == outcome.value.0
                              && Enterable(id, listed, price) && outcome.value.1 == Totals(EntryRows(id, listed, price))
      ensures outcome.Ok? ==> Sums(outcome.value.1, listed, price)
      ensures outcome.Ok? ==> forall i :: 0 <= i < |listed| ==> OneEntryFor(books, id, listed[i].planId) && EntryStored(books, id, listed[i], price)
      ensures outcome.Ok? ==>
                && outcome.value.0.status.Closed? && outcome.value.0.closedBy == actor && outcome.value.0.closedAt == Some(now)
                && outcome.value.0.version == expected + 2 && outcome.value.0.window.end <= now
    {
      hide OneEntryFor, EntryStored, Sums, IsHistory;
      hide Run, Try, Exec, CloseTx, Enterable, EntryRows, Period.Begin, Period.Close;
      Interfere();
      c := Command.CalculateAndClose(actor, id, expected, price, listed, entryIds, now, |calls|, audited);
      if id !in books.periods {
        before := calls;
        Refuse(c);
        return Err(NOT_FOUND), before, c;
      }
      var period := books.periods[id];
      var computed := Compute(period, actor, id, expected, price, listed, now, c);
      if computed.Err? {
        before := calls;
        Refuse(c);
        return Err(computed.fault), before, c;
      }
      Interfere();
      before := calls;
      TryIs(history, c);
      var refused := InsertEntriesAtomic(id, computed.value.0, expected, entryIds, computed.value.1, audited);
      Executed(c);
      if refused.Some? {
        return Err(refused.value), before, c;
      }
      var summary := Summarize(computed.value.1);
      outcome := Ok((computed.value.0, summary));
      RunIsSound(before);
      RunIsHistory(before);
      hide HistoryInv;
      ClosedRowIsStored(Run(before), c);
      TotalsAreSums(id, listed, price);
      WinnersListIsStored(Run(before), c);
    }

    method Refuse(ghost c: Command)
      requires Valid() && c.CalculateAndClose? && c.at < |history|
      requires c.id in history[c.at].periods ==> Closing(history[c.at].periods[c.id], c).Err?
      modifies this`history, this`calls
      ensures Valid() && calls == old(calls) + [c] && Try(Run(old(calls)), c).None?
    {
      hide Run, Exec, Closing, Try;
      TryIs(history, c);
      assert TryClose(history, c).None?;
      Executed(c);
    }
  }

  /** What CalculateAndClose computes from the period row: the closed row and the entries. */
  method Compute(period: Period, actor: Id, id: Id, expected: int, price: int, listed: seq<Energy>, now: Instant, ghost c: Command)
    returns (computed: Result<(Period, seq<Entry>)>)
    requires c.CalculateAndClose? && c.actor == actor && c.id == id && c.expected == expected && c.price == price && c.listed == listed && c.now == now
    ensures computed.Ok? <==> Closing(period, c).Ok?
    ensures computed.Ok? ==> computed.value.0 == Closing(period, c).value && Enterable(id, listed, price)
                             && computed.value.1 == EntryRows(id, listed, price)
  {
    hide Period.Begin, Period.Close, NewEntry;
    if period.version != expected {
      return Err(VERSION_CONFLICT);
    }
    var calculating := period.Begin(expected, |listed|, |listed|, now);
    if calculating.Err? {
      return Err(calculating.fault);
    }
    var rows := [];
    for i := 0 to |listed|
      invariant Enterable(id, listed[..i], price) && rows == EntryRows(id, listed[..i], price)
    {
      var entry := NewEntry(id, listed[i].planId, listed[i].targetKWh * 1000, listed[i].actualWh, price);
      if entry.Err? {
        assert EntryOf(id, listed[i], price).Err?;
        return Err(entry.fault);
      }
      rows := rows + [entry.value];
    }
    assert listed[..|listed|] == listed;
    var closed := calculating.value.Close(actor, calculating.value.version, |listed|, |rows|, now);
    computed := if closed.Err? then Err(closed.fault) else Ok((closed.value, rows));
  }

  lemma TryIs(h: History, c: Command)
    requires c.CalculateAndClose?
    ensures Try(h, c) == TryClose(h, c) && Exec(h, c) == if TryClose(h, c).Some? then TryClose(h, c).value else Last(h)
  {
    hide TryClose;
  }

  lemma ClosedRowIsStored(h: History, c: Command)
    requires HistoryInv(h) && c.CalculateAndClose? && TryClose(h, c).Some?
    ensures c.at < |h| && c.id in h[c.at].periods && c.id in TryClose(h, c).value.periods
    ensures Closing(h[c.at].periods[c.id], c) == Ok(TryClose(h, c).value.periods[c.id])
  {
    CloseMeetsReadRow(h, c);
    CloseWrites(h, c);
    hide HistoryInv, TryClose, Closing, EntryRows, Zip, Inv;
  }

  lemma {:induction false} PostStops(entries: map<Id, Entry>, ids: seq<Id>, rows: seq<Entry>, i: nat)
    requires |ids| == |rows| && i <= |ids| && Post(entries, ids[..i], rows[..i]).None?
    ensures Post(entries, ids, rows).None?
    decreases |ids| - i
  {
    if i == |ids| {
      assert ids[..i] == ids && rows[..i] == rows;
    } else {
      assert ids[..i + 1][..i] == ids[..i] && rows[..i + 1][..i] == rows[..i];
      PostStops(entries, ids, rows, i + 1);
    }
  }
}
