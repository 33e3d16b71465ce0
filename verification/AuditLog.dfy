/**
 * The audit log and its keyset pages (internal/audit/audit.go, ListAudit in
 * internal/storage/sqlite/operations.go). Times are stored, compared and put into
 * cursors as text; a page's cursor names its last event.
 */
module AuditLog {
  import opened Prelude
  import opened TimeEncoding
  import opened Telemetry

  datatype Event = Event(id: Id, objectType: string, objectId: string, requestId: string, occurredAt: Instant)

  datatype Row = Row(objectType: string, objectId: string, requestId: string, occurred: string)

  type Table = map<Id, Row>

  datatype Cursor = Cursor(occurredAt: Instant, id: Id)

  datatype Filter = Filter(
    objectType: string, objectId: string, requestId: string, from: Option<Instant>, until: Option<Instant>,
    cursor: Option<Cursor>, limit: int)
  {
    function Normalize(): (r: Result<Filter>)
      ensures r.Ok? ==> 1 <= r.value.limit <= 500 && r.value.cursor == cursor
    {
      var size := if limit == 0 then 100 else limit;
      if size < 1 || size > 500 then Err(Fault(Invalid, "invalid_page_limit"))
      else if from.Some? && until.Some? && from.value >= until.value then Err(Fault(Invalid, "invalid_filter_window"))
      else if cursor.Some? && (cursor.value.occurredAt == ZERO_TIME || Blank(cursor.value.id)) then Err(Fault(Invalid, "invalid_cursor"))
      else Ok(this.(objectType := Trim(objectType), objectId := Trim(objectId), requestId := Trim(requestId), limit := size))
    }

    /** The WHERE clause without the cursor. */
    predicate Matches(row: Row) {
      && (objectType == "" || row.objectType == objectType)
      && (objectId == "" || row.objectId == objectId)
      && (requestId == "" || row.requestId == requestId)
      && (from.None? || !Less(row.occurred, EncodeTime(from.value)))
      && (until.None? || Less(row.occurred, EncodeTime(until.value)))
    }
  }

  /** Times whose stored text orders as they do. */
  predicate OrdersWith(bound: Option<Instant>, at: Instant) {
    bound.Some? ==> FourDigitYear(bound.value) && Comparable(at, bound.value)
  }

  /** What a caller asks for: empty texts are no restriction, and the window is half open. */
  predicate Asks(f: Filter, e: Event) {
    && (Blank(f.objectType) || e.objectType == Trim(f.objectType))
    && (Blank(f.objectId) || e.objectId == Trim(f.objectId))
    && (Blank(f.requestId) || e.requestId == Trim(f.requestId))
    && (f.from.Some? ==> f.from.value <= e.occurredAt)
    && (f.until.Some? ==> e.occurredAt < f.until.value)
  }

  predicate Windowed(f: Filter) { f.from.Some? && f.until.Some? ==> f.from.value < f.until.value }

  predicate CursorUsable(f: Filter) { f.cursor.Some? ==> f.cursor.value.occurredAt != ZERO_TIME && !Blank(f.cursor.value.id) }

  lemma NormalizeIff(f: Filter)
    ensures f.Normalize().Ok? <==> 0 <= f.limit <= 500 && Windowed(f) && CursorUsable(f)
    ensures f.Normalize().Ok? ==>
              f.Normalize().value == Filter(Trim(f.objectType), Trim(f.objectId), Trim(f.requestId), f.from, f.until, f.cursor,
                                            if f.limit == 0 then 100 else f.limit)
    ensures f.Normalize() == Err(Fault(Invalid, "invalid_page_limit")) <==> !(0 <= f.limit <= 500)
  {
    assert "invalid_page_limit"[8] != "invalid_filter_window"[8] && "invalid_page_limit"[8] != "invalid_cursor"[8];
    hide Trim, Blank;
  }

  /** On comparable times the WHERE clause is what the caller asked for. */
  lemma MatchesIff(f: Filter, e: Event)
    requires f.Normalize().Ok? && Recordable(e) && OrdersWith(f.from, e.occurredAt) && OrdersWith(f.until, e.occurredAt)
    ensures f.Normalize().value.Matches(Encoded(e)) <==> Asks(f, e)
  {
    NormalizeIff(f);
    if f.from.Some? { ComparableOrder(e.occurredAt, f.from.value); }
    if f.until.Some? { ComparableOrder(e.occurredAt, f.until.value); }
    hide Trim, Blank, EncodeTime, Less, Filter.Normalize, Comparable, FourDigitYear;
  }

  /** A bound is compared with an event's time as intended if and only if the two are comparable as text. */
  lemma BoundIsExactIff(bound: Instant, at: Instant)
    requires FourDigitYear(bound) && FourDigitYear(at)
    ensures (SqlLess(at, bound) <==> at < bound) <==> Comparable(at, bound)
  {
    if at == bound {
      LessIsStrict(EncodeTime(at), EncodeTime(at));
      LessIsStrict(FractionDigits(at), FractionDigits(at));
    } else {
      TextOrderIsTimeOrder(at, bound);
    }
  }

  datatype Page = Page(items: seq<Event>, next: Option<Cursor>)

  // ----- Order -----

  /** The key of the order: time as text, then identifier. */
  datatype Mark = Mark(occurred: string, id: Id)

  /** Listed earlier: greater in (occurred_at, id). */
  predicate Above(a: Mark, b: Mark) {
    Less(b.occurred, a.occurred) || (b.occurred == a.occurred && Less(b.id, a.id))
  }

  lemma AboveIsStrictTotal(a: Mark, b: Mark)
    ensures !(Above(a, b) && Above(b, a)) && (a == b ==> !Above(a, b)) && (a != b ==> Above(a, b) || Above(b, a))
  {
    LessIsStrict(a.occurred, b.occurred);
    LessIsStrict(b.occurred, a.occurred);
    LessIsStrict(a.id, b.id);
    LessIsStrict(b.id, a.id);
  }

  /** On comparable times the later event is listed first. */
  lemma AboveIsLater(a: Event, b: Event)
    requires FourDigitYear(a.occurredAt) && FourDigitYear(b.occurredAt) && Comparable(b.occurredAt, a.occurredAt)
    ensures Above(Marked(a), Marked(b)) <==> b.occurredAt < a.occurredAt || (b.occurredAt == a.occurredAt && Less(b.id, a.id))
  {
    ComparableOrder(b.occurredAt, a.occurredAt);
    if a.occurredAt != b.occurredAt { TextOrderIsTimeOrder(b.occurredAt, a.occurredAt); }
    hide EncodeTime, Less, Comparable, FourDigitYear;
  }

  lemma AboveIsTransitive(a: Mark, b: Mark, c: Mark)
    requires Above(a, b) && Above(b, c)
    ensures Above(a, c)
  {
    if Less(b.occurred, a.occurred) && Less(c.occurred, b.occurred) {
      LessTransitive(c.occurred, b.occurred, a.occurred);
    } else if b.occurred == a.occurred && c.occurred == b.occurred {
      LessTransitive(c.id, b.id, a.id);
    }
  }

  function MarkOf(t: Table, id: Id): Mark
    requires id in t
  {
    Mark(t[id].occurred, id)
  }

  function MarkAt(c: Cursor): Mark { Mark(EncodeTime(c.occurredAt), c.id) }

  function Marked(e: Event): Mark { Mark(EncodeTime(e.occurredAt), e.id) }

  // ----- Stored rows and events -----

  function Encoded(e: Event): Row { Row(e.objectType, e.objectId, e.requestId, EncodeTime(e.occurredAt)) }

  /** A time that does not parse is read as the zero time. */
  function Decoded(id: Id, row: Row): Event {
    var at := ParseTime(row.occurred);
    Event(id, row.objectType, row.objectId, row.requestId, if at.Some? then at.value else ZERO_TIME)
  }

  /** Events as NewEvent makes them, under a clock that shows a real time of a four-digit year. */
  predicate Recordable(e: Event) { !Blank(e.id) && e.occurredAt != ZERO_TIME && FourDigitYear(e.occurredAt) }

  ghost predicate WellStored(t: Table) {
    forall id :: id in t ==> t[id] == Encoded(Decoded(id, t[id])) && Recordable(Decoded(id, t[id]))
  }

  /** What is read back is what was written, so a cursor names its event's place exactly. */
  lemma StoredEventsReadBack(e: Event)
    requires Recordable(e)
    ensures Decoded(e.id, Encoded(e)) == e
  {
    ParseInvertsEncode(e.occurredAt);
  }

  // ----- One page -----

  /** The rows that the query selects. */
  predicate Selects(t: Table, f: Filter, id: Id) {
    && id in t && f.Matches(t[id])
    && (f.cursor.None? || Above(MarkAt(f.cursor.value), MarkOf(t, id)))
  }

  predicate IsSelected(t: Table, f: Filter, e: Event) { Selects(t, f, e.id) && e == Decoded(e.id, t[e.id]) }

  predicate Descending(marks: seq<Mark>) { forall i, j :: 0 <= i < j < |marks| ==> Above(marks[i], marks[j]) }

  function MarksOf(items: seq<Event>): (marks: seq<Mark>)
    ensures |marks| == |items|
  {
    seq(|items|, i requires 0 <= i < |items| => Marked(items[i]))
  }

  predicate Lists(items: seq<Event>, id: Id) { exists i :: 0 <= i < |items| && items[i].id == id }

  /** The first `limit` selected rows, and a cursor exactly if there are more. */
  ghost predicate IsPage(t: Table, f: Filter, page: Page) {
    && 1 <= f.limit && |page.items| <= f.limit
    && Descending(MarksOf(page.items))
    && (forall i :: 0 <= i < |page.items| ==> IsSelected(t, f, page.items[i]))
    && (forall id :: Selects(t, f, id) && !Lists(page.items, id) ==> Follows(page, MarkOf(t, id)))
    && (page.next.None? <==> forall id :: Selects(t, f, id) ==> Lists(page.items, id))
    && (page.next.Some? ==> |page.items| == f.limit
                            && page.next.value == Cursor(page.items[f.limit - 1].occurredAt, page.items[f.limit - 1].id))
  }

  /** A place after all items of the page. */
  predicate Follows(page: Page, m: Mark) { forall i :: 0 <= i < |page.items| ==> Above(Marked(page.items[i]), m) }

  /**
   * A page of a listing in the caller's terms: stored events that were asked for, in
   * descending order and below the cursor; and an event that was asked for and is not on
   * the page comes after it.
   */
  lemma ListingIsAsAsked(t: Table, f: Filter, page: Page)
    requires WellStored(t) && f.Normalize().Ok? && IsPage(t, f.Normalize().value, page)
    requires forall id :: id in t ==> OrdersWith(f.from, Decoded(id, t[id]).occurredAt) && OrdersWith(f.until, Decoded(id, t[id]).occurredAt)
    ensures |page.items| <= (if f.limit == 0 then 100 else f.limit) && Descending(MarksOf(page.items))
    ensures forall i :: 0 <= i < |page.items| ==>
              var e := page.items[i]; e.id in t && e == Decoded(e.id, t[e.id]) && Asks(f, e) && Below(f.cursor, Marked(e))
    ensures forall id :: id in t && Asks(f, Decoded(id, t[id])) && Below(f.cursor, MarkOf(t, id)) && !Lists(page.items, id) ==>
              Follows(page, MarkOf(t, id)) && page.next.Some?
  {
    hide Decoded, Encoded, Above, Asks, OrdersWith, Filter.Normalize, Filter.Matches, Follows, Lists, Recordable;
    NormalizeIff(f);
    forall id | id in t ensures f.Normalize().value.Matches(t[id]) <==> Asks(f, Decoded(id, t[id])) {
      MatchesIff(f, Decoded(id, t[id]));
    }
    SelectsIff(t, f.Normalize().value);
    MarkedAsStored(t);
    hide Selects, WellStored, Below, MarkOf, Marked;
  }

  lemma MarkedAsStored(t: Table)
    requires WellStored(t)
    ensures forall id :: id in t ==> Marked(Decoded(id, t[id])) == MarkOf(t, id) && Decoded(id, t[id]).id == id
  {
    hide EncodeTime, ParseTime;
  }

  /** Later in the listing than the cursor, if there is one. */
  predicate Below(cursor: Option<Cursor>, m: Mark) { cursor.Some? ==> Above(MarkAt(cursor.value), m) }

  lemma SelectsIff(t: Table, f: Filter)
    ensures forall id :: Selects(t, f, id) <==> id in t && f.Matches(t[id]) && Below(f.cursor, MarkOf(t, id))
  {
    hide Above, Filter.Matches;
  }

  class Log {
    var rows: Table

    constructor ()
      ensures rows == map[]
    {
      rows := map[];
    }

    /** insertAudit: the primary key is the only constraint. */
    method Append(e: Event) returns (refused: Option<Fault>)
      modifies this
      ensures refused.Some? <==> e.id in old(rows)
      ensures rows == if refused.Some? then old(rows) else old(rows)[e.id := Encoded(e)]
      ensures old(WellStored(rows)) && Recordable(e) ==> WellStored(rows)
    {
      if e.id in rows {
        return Some(CONSTRAINT);
      }
      if Recordable(e) { StoredEventsReadBack(e); }
      rows := rows[e.id := Encoded(e)];
      refused := None;
    }

    method ListAudit(filter: Filter) returns (outcome: Result<Page>)
      requires WellStored(rows)
      ensures outcome.Ok? <==> filter.Normalize().Ok?
      ensures outcome.Err? ==> outcome.fault == filter.Normalize().fault
      ensures outcome.Ok? ==> IsPage(rows, filter.Normalize().value, outcome.value)
    {
      var normalized := filter.Normalize();
      if normalized.Err? {
        return Err(normalized.fault);
      }
      var page := Fetch(normalized.value);
      outcome := Ok(page);
    }

    /** One row more than the limit is fetched; the cursor is made of the last event kept. */
    method Fetch(f: Filter) returns (page: Page)
      requires WellStored(rows) && 1 <= f.limit
      ensures IsPage(rows, f, page)
    {
      hide *;
      var found := Query(rows, f, f.limit + 1);
      var items := Scan(rows, found);
      var next := None;
      if |items| > f.limit {
        var last := items[f.limit - 1];
        next := Some(Cursor(last.occurredAt, last.id));
        items := items[..f.limit];
      }
      page := Page(items, next);
      TrimmedIsPage(rows, f, found, page);
    }
  }

  /** The loop over the result rows. */
  method Scan(t: Table, ids: seq<Id>) returns (items: seq<Event>)
    requires forall id :: id in ids ==> id in t
    ensures |items| == |ids| && forall i :: 0 <= i < |ids| ==> items[i] == Decoded(ids[i], t[ids[i]])
  {
    hide Decoded;
    items := [];
    for i := 0 to |ids|
      invariant |items| == i && forall k :: 0 <= k < i ==> items[k] == Decoded(ids[k], t[ids[k]])
    {
      items := items + [Decoded(ids[i], t[ids[i]])];
    }
  }

  /** The first n selected rows in order: what SQLite answers. */
  ghost predicate IsAnswer(t: Table, f: Filter, n: nat, found: seq<Id>) {
    && |found| <= n
    && (forall i :: 0 <= i < |found| ==> Selects(t, f, found[i]))
    && (forall i, j :: 0 <= i < j < |found| ==> Above(MarkOf(t, found[i]), MarkOf(t, found[j])))
    && (forall id :: Selects(t, f, id) && id !in found ==>
          |found| == n && forall i :: 0 <= i < |found| ==> Above(MarkOf(t, found[i]), MarkOf(t, id)))
  }

  method Query(t: Table, f: Filter, n: nat) returns (found: seq<Id>)
    ensures IsAnswer(t, f, n, found)
    ensures forall id :: id in found ==> id in t
  {
    hide Filter.Matches, Above;
    found := [];
    var todo := set id | id in t && Selects(t, f, id);
    while |found| < n && todo != {}
      invariant |found| <= n && forall id :: id in todo ==> Selects(t, f, id)
      invariant forall id :: Selects(t, f, id) <==> id in todo || id in found
      invariant forall i :: 0 <= i < |found| ==> Selects(t, f, found[i])
      invariant forall i, j :: 0 <= i < j < |found| ==> Above(MarkOf(t, found[i]), MarkOf(t, found[j]))
      invariant forall i, id :: 0 <= i < |found| && id in todo ==> Above(MarkOf(t, found[i]), MarkOf(t, id))
      decreases todo
    {
      var top := Topmost(t, todo);
      found := found + [top];
      todo := todo - {top};
    }
  }

  method Topmost(t: Table, ids: set<Id>) returns (top: Id)
    requires ids != {} && ids <= t.Keys
    ensures top in ids && forall id :: id in ids && id != top ==> Above(MarkOf(t, top), MarkOf(t, id))
  {
    top :| top in ids;
    var rest := ids - {top};
    while rest != {}
      invariant rest <= ids && top in ids && top !in rest
      invariant forall id :: id in ids && id !in rest && id != top ==> Above(MarkOf(t, top), MarkOf(t, id))
    {
      var id :| id in rest;
      ghost var before := top;
      AboveIsStrictTotal(MarkOf(t, top), MarkOf(t, id));
      if Above(MarkOf(t, id), MarkOf(t, top)) {
        forall x | x in ids && x !in rest && x != top ensures Above(MarkOf(t, id), MarkOf(t, x)) {
          AboveIsTransitive(MarkOf(t, id), MarkOf(t, top), MarkOf(t, x));
        }
        top := id;
      }
      rest := rest - {id};
    }
  }

  /** One row more than the limit is fetched to see whether there is a next page. */
  lemma TrimmedIsPage(t: Table, f: Filter, found: seq<Id>, page: Page)
    requires WellStored(t) && 1 <= f.limit && IsAnswer(t, f, f.limit + 1, found) && forall id :: id in found ==> id in t
    requires |page.items| == (if |found| > f.limit then f.limit else |found|)
    requires forall i :: 0 <= i < |page.items| ==> page.items[i] == Decoded(found[i], t[found[i]])
    requires page.next == if |found| > f.limit
                          then Some(Cursor(page.items[f.limit - 1].occurredAt, page.items[f.limit - 1].id)) else None
    ensures IsPage(t, f, page)
  {
    hide WellStored, Selects, Decoded, Above, IsSelected, Marked, Lists, IsAnswer, Descending, MarksOf, Follows, MarkOf;
    AnswerIsSelected(t, f, found);
    ScannedRows(t, f, found, page.items);
    PageDescends(t, f, found, page);
    PageEnds(t, f, found, page);
    RestsFollow(t, f, found, page);
  }

  lemma AnswerIsSelected(t: Table, f: Filter, found: seq<Id>)
    requires 1 <= f.limit && IsAnswer(t, f, f.limit + 1, found)
    ensures |found| <= f.limit + 1 && forall i :: 0 <= i < |found| ==> Selects(t, f, found[i])
  {
    hide Selects;
  }

  ghost predicate Shown(t: Table, found: seq<Id>, page: Page)
    requires forall id :: id in found ==> id in t
  {
    |page.items| <= |found|
    && forall i :: 0 <= i < |page.items| ==> page.items[i].id == found[i] && Marked(page.items[i]) == MarkOf(t, found[i])
  }

  lemma PageDescends(t: Table, f: Filter, found: seq<Id>, page: Page)
    requires 1 <= f.limit && IsAnswer(t, f, f.limit + 1, found) && (forall id :: id in found ==> id in t) && Shown(t, found, page)
    ensures Descending(MarksOf(page.items))
  {
    hide Selects, Above, Marked;
    forall i, j | 0 <= i < j < |page.items| ensures Above(MarksOf(page.items)[i], MarksOf(page.items)[j]) {
      assert Above(MarkOf(t, found[i]), MarkOf(t, found[j]));
    }
  }

  /** All selected rows are on the page exactly if no more than the limit were found. */
  lemma PageEnds(t: Table, f: Filter, found: seq<Id>, page: Page)
    requires 1 <= f.limit && IsAnswer(t, f, f.limit + 1, found) && (forall id :: id in found ==> id in t) && Shown(t, found, page)
    requires |page.items| == (if |found| > f.limit then f.limit else |found|)
    ensures |found| <= f.limit <==> forall id :: Selects(t, f, id) ==> Lists(page.items, id)
  {
    hide Selects, Above, Marked;
    if |found| > f.limit {
      forall i | 0 <= i < f.limit ensures page.items[i].id != found[f.limit] {
        AboveIsStrictTotal(MarkOf(t, found[i]), MarkOf(t, found[f.limit]));
      }
      assert Selects(t, f, found[f.limit]) && !Lists(page.items, found[f.limit]);
    } else {
      forall id | Selects(t, f, id) ensures Lists(page.items, id) {
        var k :| 0 <= k < |found| && found[k] == id;
        assert page.items[k].id == id;
      }
    }
  }

  lemma ScannedRows(t: Table, f: Filter, found: seq<Id>, items: seq<Event>)
    requires WellStored(t) && |items| <= |found| && (forall id :: id in found ==> id in t)
    requires forall i :: 0 <= i < |items| ==> items[i] == Decoded(found[i], t[found[i]])
    requires forall i :: 0 <= i < |found| ==> Selects(t, f, found[i])
    ensures forall i :: 0 <= i < |items| ==>
              items[i].id == found[i] && Marked(items[i]) == MarkOf(t, found[i]) && IsSelected(t, f, items[i])
  {
    hide Selects;
    forall i | 0 <= i < |items|
      ensures items[i].id == found[i] && Marked(items[i]) == MarkOf(t, found[i]) && IsSelected(t, f, items[i])
    {
      assert items[i] == Decoded(found[i], t[found[i]]);
    }
  }

  lemma RestsFollow(t: Table, f: Filter, found: seq<Id>, page: Page)
    requires 1 <= f.limit && IsAnswer(t, f, f.limit + 1, found) && (forall id :: id in found ==> id in t) && Shown(t, found, page)
    requires |page.items| == (if |found| > f.limit then f.limit else |found|)
    ensures forall id :: Selects(t, f, id) && !Lists(page.items, id) ==> Follows(page, MarkOf(t, id))
  {
    hide Filter.Matches, Above, Marked;
    forall k | 0 <= k < |page.items| ensures Lists(page.items, found[k]) { assert page.items[k].id == found[k]; }
    forall id | Selects(t, f, id) && !Lists(page.items, id) ensures Follows(page, MarkOf(t, id)) {
      if id in found {
        var k :| 0 <= k < |found| && found[k] == id;
      }
    }
  }
}
