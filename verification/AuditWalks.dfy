/**
 * Following the cursors of the audit log from the first page until there is no next one,
 * while events keep being appended between the pages.
 */
module AuditWalks {
  import opened Prelude
  import opened TimeEncoding
  import opened Telemetry
  import opened AuditLog

  ghost predicate Grew(a: Table, b: Table) { forall id :: id in a ==> id in b && b[id] == a[id] }

  /** The request for page k: the filter with the cursor that page k - 1 gave. */
  ghost function Request(f: Filter, pages: seq<Page>, k: nat): Filter
    requires k <= |pages|
  {
    f.(cursor := if k == 0 then None else pages[k - 1].next)
  }

  /** Page k was read from table k; every page but possibly the last had a next one. */
  ghost predicate IsWalk(tables: seq<Table>, f: Filter, pages: seq<Page>) {
    && |tables| == |pages|
    && (forall k :: 0 <= k < |tables| ==> WellStored(tables[k]))
    && (forall j, k :: 0 <= j <= k < |tables| ==> Grew(tables[j], tables[k]))
    && (forall k :: 0 <= k < |pages| ==> IsPage(tables[k], Request(f, pages, k), pages[k]))
    && (forall k :: 0 <= k < |pages| - 1 ==> pages[k].next.Some?)
  }

  ghost predicate Complete(pages: seq<Page>) { pages != [] && pages[|pages| - 1].next.None? }

  function Visited(pages: seq<Page>): seq<Event> {
    if pages == [] then [] else Visited(pages[..|pages| - 1]) + pages[|pages| - 1].items
  }

  lemma WalkPrefix(tables: seq<Table>, f: Filter, pages: seq<Page>)
    requires IsWalk(tables, f, pages) && pages != []
    ensures IsWalk(tables[..|pages| - 1], f, pages[..|pages| - 1])
  {
    hide WellStored, Grew, IsPage;
    var (ts, ps) := (tables[..|pages| - 1], pages[..|pages| - 1]);
    forall k | 0 <= k < |ps| ensures IsPage(ts[k], Request(f, ps, k), ps[k]) {
      assert Request(f, ps, k) == Request(f, pages, k);
    }
  }

  lemma PageOf(tables: seq<Table>, f: Filter, pages: seq<Page>, k: nat)
    requires IsWalk(tables, f, pages) && k < |pages|
    ensures |tables| == |pages| && WellStored(tables[k]) && IsPage(tables[k], Request(f, pages, k), pages[k])
    ensures k + 1 < |pages| ==> pages[k].next.Some?
  {
    hide WellStored, Grew, IsPage;
  }

  lemma TablesGrow(tables: seq<Table>, f: Filter, pages: seq<Page>, j: nat, k: nat)
    requires IsWalk(tables, f, pages) && j <= k < |pages|
    ensures |tables| == |pages| && Grew(tables[j], tables[k])
  {
    hide WellStored, Grew, IsPage;
  }

  /** What the first n pages visited, and then page n. */
  lemma VisitedLast(pages: seq<Page>)
    requires pages != []
    ensures Visited(pages) == Visited(pages[..|pages| - 1]) + pages[|pages| - 1].items
    ensures |pages| == 1 ==> Visited(pages) == pages[0].items
  {
  }

  // ----- Order -----

  /** All marks of the list are at or above this one. */
  ghost predicate EndsAt(items: seq<Event>, m: Mark) {
    forall i :: 0 <= i < |items| ==> Marked(items[i]) == m || Above(Marked(items[i]), m)
  }

  lemma DescentContinues(a: seq<Event>, b: seq<Event>, m: Mark)
    requires Descending(MarksOf(a)) && Descending(MarksOf(b)) && EndsAt(a, m)
    requires forall j :: 0 <= j < |b| ==> Above(m, Marked(b[j]))
    ensures Descending(MarksOf(a + b))
  {
    hide Above, Marked;
    forall i, j | 0 <= i < j < |a + b| ensures Above(MarksOf(a + b)[i], MarksOf(a + b)[j]) {
      if i < |a| && |a| <= j {
        assert Above(m, Marked(b[j - |a|]));
        if Marked(a[i]) != m { AboveIsTransitive(Marked(a[i]), m, Marked(b[j - |a|])); }
      } else if |a| <= i {
        assert Above(MarksOf(b)[i - |a|], MarksOf(b)[j - |a|]);
      } else {
        assert Above(MarksOf(a)[i], MarksOf(a)[j]);
      }
    }
  }

  lemma PageStartsBelow(t: Table, f: Filter, page: Page)
    requires WellStored(t) && IsPage(t, f, page) && f.cursor.Some?
    ensures forall j :: 0 <= j < |page.items| ==> Above(MarkAt(f.cursor.value), Marked(page.items[j]))
  {
    hide Filter.Matches, Above;
    forall j | 0 <= j < |page.items| ensures Above(MarkAt(f.cursor.value), Marked(page.items[j])) {
      assert IsSelected(t, f, page.items[j]);
    }
  }

  lemma CursorMark(e: Event)
    ensures MarkAt(Cursor(e.occurredAt, e.id)) == Marked(e)
  {
  }

  lemma PageEndsAtCursor(t: Table, f: Filter, page: Page)
    requires IsPage(t, f, page) && page.next.Some?
    ensures EndsAt(page.items, MarkAt(page.next.value))
  {
    hide Above, IsSelected, Selects, Lists, Follows, Descending, MarksOf, EndsAt, Marked, MarkAt;
    CursorMark(page.items[f.limit - 1]);
    EndsAtLast(page.items);
  }

  lemma EndsAtLast(items: seq<Event>)
    requires Descending(MarksOf(items)) && items != []
    ensures EndsAt(items, Marked(items[|items| - 1]))
  {
    hide Above, Marked;
    forall i | 0 <= i < |items| - 1 ensures Above(Marked(items[i]), Marked(items[|items| - 1])) {
      assert Above(MarksOf(items)[i], MarksOf(items)[|items| - 1]);
    }
  }

  lemma EndMoves(items: seq<Event>, more: seq<Event>, m: Mark, n: Mark)
    requires EndsAt(items, m) && EndsAt(more, n) && Above(m, n)
    ensures EndsAt(items + more, n)
  {
    hide Above, Marked;
    forall i | 0 <= i < |items| ensures Above(Marked(items[i]), n) {
      if Marked(items[i]) != m { AboveIsTransitive(Marked(items[i]), m, n); }
    }
  }

  /** The events visited descend, and end at the cursor for the next page. */
  ghost predicate Descends(pages: seq<Page>) {
    && Descending(MarksOf(Visited(pages)))
    && (pages != [] && pages[|pages| - 1].next.Some? ==> EndsAt(Visited(pages), MarkAt(pages[|pages| - 1].next.value)))
  }

  lemma DescendsMeans(pages: seq<Page>)
    requires Descends(pages)
    ensures Descending(MarksOf(Visited(pages)))
  {
  }

  lemma FirstDescends(t: Table, f: Filter, pages: seq<Page>)
    requires |pages| == 1 && IsPage(t, f, pages[0])
    ensures Descends(pages)
  {
    hide IsPage, Descending, MarksOf, EndsAt, Visited;
    VisitedLast(pages);
    PageDescending(t, f, pages[0]);
    if pages[0].next.Some? { PageEndsAtCursor(t, f, pages[0]); }
  }

  lemma NextDescends(t: Table, f: Filter, pages: seq<Page>, n: nat)
    requires 0 < n == |pages| - 1 && WellStored(t) && IsPage(t, Request(f, pages, n), pages[n])
    requires Descends(pages[..n]) && pages[n - 1].next.Some?
    ensures Descends(pages)
  {
    hide IsPage, WellStored, Descending, MarksOf, EndsAt, Visited, MarkAt;
    VisitedLast(pages);
    assert pages[..n][n - 1] == pages[n - 1];
    DescendsOn(t, Request(f, pages, n), pages[n], Visited(pages[..n]));
  }

  /** The pages of a walk list events in strictly descending order, so none twice. */
  lemma {:induction false} WalksDescend(tables: seq<Table>, f: Filter, pages: seq<Page>)
    requires IsWalk(tables, f, pages)
    ensures Descends(pages)
  {
    if pages != [] {
      hide *;
      var n := |pages| - 1;
      WalkPrefix(tables, f, pages);
      WalksDescend(tables[..n], f, pages[..n]);
      PageOf(tables, f, pages, n);
      if n == 0 {
        FirstDescends(tables[n], Request(f, pages, n), pages);
      } else {
        PageOf(tables, f, pages, n - 1);
        NextDescends(tables[n], f, pages, n);
      }
    } else {
      assert Visited(pages) == [];
    }
  }

  lemma RequestAfter(f: Filter, pages: seq<Page>, n: nat)
    requires 0 < n < |pages|
    ensures Request(f, pages, n).cursor == pages[n - 1].next && Request(f, pages, n) == f.(cursor := pages[n - 1].next)
  {
  }

  lemma DescendsOn(t: Table, f: Filter, page: Page, visited: seq<Event>)
    requires WellStored(t) && IsPage(t, f, page) && f.cursor.Some?
    requires Descending(MarksOf(visited)) && EndsAt(visited, MarkAt(f.cursor.value))
    ensures Descending(MarksOf(visited + page.items))
    ensures page.next.Some? ==> EndsAt(visited + page.items, MarkAt(page.next.value))
  {
    hide *;
    var m := MarkAt(f.cursor.value);
    PageDescending(t, f, page);
    PageStartsBelow(t, f, page);
    DescentContinues(visited, page.items, m);
    if page.next.Some? {
      PageEndsAtCursor(t, f, page);
      LastStartsBelow(t, f, page);
      EndMoves(visited, page.items, m, MarkAt(page.next.value));
    }
  }

  lemma PageDescending(t: Table, f: Filter, page: Page)
    requires IsPage(t, f, page)
    ensures Descending(MarksOf(page.items))
  {
  }

  lemma LastStartsBelow(t: Table, f: Filter, page: Page)
    requires WellStored(t) && IsPage(t, f, page) && f.cursor.Some? && page.next.Some?
    ensures Above(MarkAt(f.cursor.value), MarkAt(page.next.value))
  {
    hide WellStored, Above, Selects, IsSelected, Marked, MarkAt, Descending, MarksOf, Lists, Follows;
    PageStartsBelow(t, f, page);
    CursorMark(page.items[f.limit - 1]);
  }

  // ----- Coverage -----

  lemma PageCovers(t: Table, f: Filter, page: Page, id: Id)
    requires IsPage(t, f, page) && Selects(t, f, id)
    ensures Lists(page.items, id) || (page.next.Some? && Above(MarkAt(page.next.value), MarkOf(t, id)))
  {
    hide Above, Filter.Matches, Descending, MarksOf, IsSelected;
    if !Lists(page.items, id) {
      assert Follows(page, MarkOf(t, id));
      assert Above(Marked(page.items[f.limit - 1]), MarkOf(t, id));
    }
  }

  /** What page k could select is listed by then, or lies below the cursor. */
  lemma {:induction false} WalksCover(tables: seq<Table>, f: Filter, pages: seq<Page>, k: nat, id: Id)
    requires IsWalk(tables, f, pages) && k < |pages| && Selects(tables[k], Request(f, pages, k), id)
    ensures id in tables[|pages| - 1]
    ensures Lists(Visited(pages), id)
            || (pages[|pages| - 1].next.Some? && Above(MarkAt(pages[|pages| - 1].next.value), MarkOf(tables[|pages| - 1], id)))
    decreases |pages|
  {
    hide *;
    var n := |pages| - 1;
    PageOf(tables, f, pages, n);
    VisitedLast(pages);
    ListsEither(Visited(pages[..n]), pages[n].items, id);
    if k == n {
      SelectedIsStored(tables[k], Request(f, pages, k), id);
      PageCovers(tables[n], Request(f, pages, n), pages[n], id);
    } else {
      WalkPrefix(tables, f, pages);
      RequestPrefix(f, pages, k, n);
      WalksCover(tables[..n], f, pages[..n], k, id);
      TablesGrow(tables, f, pages, k, n - 1);
      TablesGrow(tables, f, pages, n - 1, n);
      GrewMeans(tables[n - 1], tables[n], id);
      if !Lists(Visited(pages[..n]), id) {
        PageOf(tables, f, pages, n - 1);
        StillSelected(tables[k], tables[n - 1], tables[n], f, pages, k, n, id);
        PageCovers(tables[n], Request(f, pages, n), pages[n], id);
      }
    }
  }

  lemma SelectedIsStored(t: Table, f: Filter, id: Id)
    requires Selects(t, f, id)
    ensures id in t
  {
  }

  lemma GrewMeans(a: Table, b: Table, id: Id)
    requires Grew(a, b) && id in a
    ensures id in b && b[id] == a[id]
  {
  }

  lemma RequestPrefix(f: Filter, pages: seq<Page>, k: nat, n: nat)
    requires k <= n <= |pages|
    ensures Request(f, pages[..n], k) == Request(f, pages, k)
  {
  }

  lemma StillSelected(t: Table, before: Table, now: Table, f: Filter, pages: seq<Page>, k: nat, n: nat, id: Id)
    requires k < n < |pages| && pages[n - 1].next.Some? && Selects(t, Request(f, pages, k), id) && Grew(t, before) && Grew(before, now)
    requires id in before && Above(MarkAt(pages[n - 1].next.value), MarkOf(before, id))
    ensures Selects(now, Request(f, pages, n), id)
  {
    hide Above;
  }

  lemma ListsEither(a: seq<Event>, b: seq<Event>, id: Id)
    ensures Lists(a + b, id) <==> Lists(a, id) || Lists(b, id)
  {
    var all := a + b;
    if i :| 0 <= i < |a| && a[i].id == id { assert all[i].id == id; }
    if i :| 0 <= i < |b| && b[i].id == id { assert all[|a| + i].id == id; }
    if i :| 0 <= i < |all| && all[i].id == id {
      if i < |a| { assert a[i].id == id; } else { assert b[i - |a|].id == id; }
    }
  }

  /**
   * A complete walk visits exactly once every matching event that was stored when it
   * began, and also those stored later below the cursor of their moment; events that
   * arrive above the cursor disturb nothing.
   */
  lemma WalksVisitEachEventOnce(tables: seq<Table>, f: Filter, pages: seq<Page>, k: nat, id: Id)
    requires IsWalk(tables, f, pages) && pages != [] && Complete(pages) && k < |pages| && Selects(tables[k], Request(f, pages, k), id)
    ensures exists i :: 0 <= i < |Visited(pages)| && Visited(pages)[i].id == id
    ensures forall i, j :: 0 <= i < j < |Visited(pages)| ==> Visited(pages)[i].id != Visited(pages)[j].id
  {
    hide IsPage, WellStored, Selects, Above, Visited, Grew;
    WalksCover(tables, f, pages, k, id);
    WalksDescend(tables, f, pages);
    DescendsMeans(pages);
    VisitedRows(tables, f, pages);
    DescendingIdsDiffer(Visited(pages), tables[|pages| - 1]);
  }

  /** Every visited event is stored, as it was listed, and matches the filter. */
  lemma {:induction false} VisitedRows(tables: seq<Table>, f: Filter, pages: seq<Page>)
    requires IsWalk(tables, f, pages) && pages != []
    ensures forall i :: 0 <= i < |Visited(pages)| ==> Visible(tables[|pages| - 1], f, Visited(pages)[i])
  {
    hide *;
    var n := |pages| - 1;
    PageOf(tables, f, pages, n);
    VisitedLast(pages);
    SameFilter(f, pages, n);
    PageIsVisible(tables[n], Request(f, pages, n), f, pages[n]);
    if n > 0 {
      WalkPrefix(tables, f, pages);
      VisitedRows(tables[..n], f, pages[..n]);
      TablesGrow(tables, f, pages, n - 1, n);
      forall i | 0 <= i < |Visited(pages[..n])| ensures Visible(tables[n], f, Visited(pages[..n])[i]) {
        StaysVisible(tables[n - 1], tables[n], f, Visited(pages[..n])[i]);
      }
    }
  }

  lemma SameFilter(f: Filter, pages: seq<Page>, n: nat)
    requires n <= |pages|
    ensures Request(f, pages, n) == f.(cursor := Request(f, pages, n).cursor)
  {
  }

  predicate Visible(t: Table, f: Filter, e: Event) {
    e.id in t && f.Matches(t[e.id]) && e == Decoded(e.id, t[e.id]) && Marked(e) == MarkOf(t, e.id)
  }

  lemma StaysVisible(a: Table, b: Table, f: Filter, e: Event)
    requires Visible(a, f, e) && Grew(a, b)
    ensures Visible(b, f, e)
  {
  }

  lemma PageIsVisible(t: Table, r: Filter, f: Filter, page: Page)
    requires WellStored(t) && IsPage(t, r, page) && r == f.(cursor := r.cursor)
    ensures forall i :: 0 <= i < |page.items| ==> Visible(t, f, page.items[i])
  {
    hide Above, Decoded, Lists, Follows, Descending, MarksOf;
    forall i | 0 <= i < |page.items| ensures Visible(t, f, page.items[i]) {
      assert IsSelected(t, r, page.items[i]);
    }
  }

  lemma DescendingIdsDiffer(items: seq<Event>, t: Table)
    requires Descending(MarksOf(items)) && forall i :: 0 <= i < |items| ==> items[i].id in t && Marked(items[i]) == MarkOf(t, items[i].id)
    ensures forall i, j :: 0 <= i < j < |items| ==> items[i].id != items[j].id
  {
    hide Above, Marked;
    forall i, j | 0 <= i < j < |items| ensures items[i].id != items[j].id {
      assert Above(MarksOf(items)[i], MarksOf(items)[j]);
      AboveIsStrictTotal(Marked(items[i]), Marked(items[j]));
    }
  }

  // ----- Number of pages -----

  ghost function Matching(t: Table, f: Filter): set<Id> { set id | id in t && f.Matches(t[id]) }

  /** Pages that this many events fill, of which there is always a first. */
  function PagesFor(count: nat, limit: int): int
    requires 1 <= limit
  {
    if count == 0 then 1 else (count + limit - 1) / limit
  }

  lemma {:induction false} FullPages(tables: seq<Table>, f: Filter, pages: seq<Page>)
    requires IsWalk(tables, f, pages) && pages != []
    ensures |Visited(pages)| == (|pages| - 1) * f.limit + |pages[|pages| - 1].items|
  {
    hide *;
    var n := |pages| - 1;
    VisitedLast(pages);
    PageOf(tables, f, pages, n);
    if n > 0 {
      WalkPrefix(tables, f, pages);
      FullPages(tables[..n], f, pages[..n]);
      PageOf(tables, f, pages, n - 1);
      SameFilter(f, pages, n - 1);
      FullPage(tables[n - 1], Request(f, pages, n - 1), pages[n - 1]);
      assert n * f.limit == (n - 1) * f.limit + f.limit;
    }
  }

  lemma FullPage(t: Table, f: Filter, page: Page)
    requires IsPage(t, f, page) && page.next.Some?
    ensures |page.items| == f.limit
  {
  }

  lemma {:induction false} DistinctIdsCount(items: seq<Event>)
    requires forall i, j :: 0 <= i < j < |items| ==> items[i].id != items[j].id
    ensures |IdsOf(items)| == |items|
  {
    if items != [] {
      var n := |items| - 1;
      DistinctIdsCount(items[..n]);
      assert IdsOf(items) == IdsOf(items[..n]) + {items[n].id};
    }
  }

  ghost function IdsOf(items: seq<Event>): set<Id> { set i | 0 <= i < |items| :: items[i].id }

  /** A next page is announced only if it has something to show. */
  lemma NextPageIsNotEmpty(t: Table, f: Filter, page: Page, g: Filter, next: Page)
    requires IsPage(t, f, page) && page.next.Some? && g == f.(cursor := page.next) && IsPage(t, g, next)
    ensures next.items != []
  {
    var id :| Selects(t, f, id) && !Lists(page.items, id);
    PageCovers(t, f, page, id);
    assert Selects(t, g, id);
    PageCovers(t, g, next, id);
  }

  /** On a table that does not change, a walk visits exactly the matching events, in max(1, ceil(n / limit)) pages. */
  lemma QuietWalks(t: Table, f: Filter, tables: seq<Table>, pages: seq<Page>)
    requires IsWalk(tables, f, pages) && pages != [] && Complete(pages) && f.cursor.None? && forall k :: 0 <= k < |tables| ==> tables[k] == t
    ensures IdsOf(Visited(pages)) == Matching(t, f) && |Visited(pages)| == |Matching(t, f)|
    ensures 1 <= f.limit
    ensures |pages| == PagesFor(|Matching(t, f)|, f.limit)
  {
    hide *;
    var n := |pages| - 1;
    QuietVisits(t, f, tables, pages);
    FullPages(tables, f, pages);
    PageOf(tables, f, pages, n);
    SameFilter(f, pages, n);
    PageSize(tables[n], Request(f, pages, n), pages[n]);
    if n > 0 {
      PageOf(tables, f, pages, n - 1);
      RequestAfter(f, pages, n);
      SameFilter(f, pages, n - 1);
      NextPageIsNotEmpty(t, Request(f, pages, n - 1), pages[n - 1], Request(f, pages, n), pages[n]);
    }
    PageCount(n, f.limit, |pages[n].items|, |Visited(pages)|);
  }

  lemma QuietVisits(t: Table, f: Filter, tables: seq<Table>, pages: seq<Page>)
    requires IsWalk(tables, f, pages) && pages != [] && Complete(pages) && f.cursor.None? && forall k :: 0 <= k < |tables| ==> tables[k] == t
    ensures IdsOf(Visited(pages)) == Matching(t, f) && |Visited(pages)| == |Matching(t, f)|
  {
    hide *;
    PageOf(tables, f, pages, 0);
    VisitedRows(tables, f, pages);
    forall id | id in Matching(t, f) ensures exists i :: 0 <= i < |Visited(pages)| && Visited(pages)[i].id == id {
      MatchingIsSelected(t, f, pages, id);
      WalksVisitEachEventOnce(tables, f, pages, 0, id);
    }
    SameIds(t, f, Visited(pages));
    VisitedAreMarked(t, f, Visited(pages));
    WalksDescend(tables, f, pages);
    DescendsMeans(pages);
    DescendingIdsDiffer(Visited(pages), t);
    DistinctIdsCount(Visited(pages));
  }

  /** On a table that does not change, every walk ends: it has at most that many pages, and just as many when there is no next one. */
  lemma QuietWalksEnd(t: Table, f: Filter, tables: seq<Table>, pages: seq<Page>)
    requires IsWalk(tables, f, pages) && pages != [] && f.cursor.None? && forall k :: 0 <= k < |tables| ==> tables[k] == t
    ensures 1 <= f.limit
    ensures |pages| <= PagesFor(|Matching(t, f)|, f.limit)
    ensures Complete(pages) <==> |pages| == PagesFor(|Matching(t, f)|, f.limit)
  {
    hide *;
    var n := |pages| - 1;
    PageOf(tables, f, pages, n);
    SameFilter(f, pages, n);
    PageSize(t, Request(f, pages, n), pages[n]);
    if Complete(pages) {
      QuietWalks(t, f, tables, pages);
    } else {
      NextIsSome(pages);
      FullPage(t, Request(f, pages, n), pages[n]);
      FullPages(tables, f, pages);
      MoreMatch(t, f, tables, pages);
      assert (n + 1) * f.limit == n * f.limit + f.limit;
      MorePages(n + 1, f.limit, |Matching(t, f)|);
    }
  }

  lemma NextIsSome(pages: seq<Page>)
    requires pages != [] && !Complete(pages)
    ensures pages[|pages| - 1].next.Some?
  {
  }

  /** A walk that has a next page leaves a matching event unvisited. */
  lemma MoreMatch(t: Table, f: Filter, tables: seq<Table>, pages: seq<Page>)
    requires IsWalk(tables, f, pages) && pages != [] && pages[|pages| - 1].next.Some? && forall k :: 0 <= k < |tables| ==> tables[k] == t
    ensures |Visited(pages)| < |Matching(t, f)|
  {
    hide *;
    var n := |pages| - 1;
    PageOf(tables, f, pages, n);
    SameFilter(f, pages, n);
    WalksDescend(tables, f, pages);
    DescendsMeans(pages);
    DescendsToCursor(pages);
    VisitedRows(tables, f, pages);
    VisitedAreMarked(t, f, Visited(pages));
    DescendingIdsDiffer(Visited(pages), t);
    DistinctIdsCount(Visited(pages));
    var id := UnlistedBelow(t, f, Request(f, pages, n), pages[n]);
    BelowIsNotVisited(t, Visited(pages), MarkAt(pages[n].next.value), id);
    VisitedMatch(t, f, Visited(pages));
    SmallerSet(IdsOf(Visited(pages)), Matching(t, f), id);
  }

  lemma DescendsToCursor(pages: seq<Page>)
    requires Descends(pages) && pages != [] && pages[|pages| - 1].next.Some?
    ensures EndsAt(Visited(pages), MarkAt(pages[|pages| - 1].next.value))
  {
  }

  /** A next page is announced because of an event below this one. */
  lemma UnlistedBelow(t: Table, f: Filter, r: Filter, page: Page) returns (id: Id)
    requires IsPage(t, r, page) && page.next.Some? && r == f.(cursor := r.cursor)
    ensures id in t && id in Matching(t, f) && Above(MarkAt(page.next.value), MarkOf(t, id))
  {
    hide Above, Descending, MarksOf;
    id :| Selects(t, r, id) && !Lists(page.items, id);
    PageCovers(t, r, page, id);
  }

  lemma BelowIsNotVisited(t: Table, items: seq<Event>, m: Mark, id: Id)
    requires EndsAt(items, m) && id in t && Above(m, MarkOf(t, id))
    requires forall i :: 0 <= i < |items| ==> items[i].id in t && Marked(items[i]) == MarkOf(t, items[i].id)
    ensures id !in IdsOf(items)
  {
    hide Above, Marked;
    forall i | 0 <= i < |items| ensures items[i].id != id {
      AboveIsStrictTotal(m, MarkOf(t, id));
      AboveIsStrictTotal(Marked(items[i]), m);
    }
  }

  lemma VisitedMatch(t: Table, f: Filter, items: seq<Event>)
    requires forall i :: 0 <= i < |items| ==> Visible(t, f, items[i])
    ensures IdsOf(items) <= Matching(t, f)
  {
    hide Filter.Matches, Decoded, Marked;
  }

  lemma SmallerSet(a: set<Id>, b: set<Id>, id: Id)
    requires a <= b && id in b && id !in a
    ensures |a| < |b|
  {
    assert b * a == a && id in b - a && |b - a| == |b| - |b * a|;
  }

  lemma MorePages(n: nat, limit: int, total: nat)
    requires 1 <= limit && n * limit < total
    ensures n < PagesFor(total, limit)
  {
    var q := (total + limit - 1) / limit;
    if q <= n {
      assert q * limit <= n * limit;
    }
  }

  lemma MatchingIsSelected(t: Table, f: Filter, pages: seq<Page>, id: Id)
    requires id in Matching(t, f)
    ensures Selects(t, Request(f, pages, 0), id)
  {
  }

  lemma SameIds(t: Table, f: Filter, items: seq<Event>)
    requires forall i :: 0 <= i < |items| ==> Visible(t, f, items[i])
    requires forall id :: id in Matching(t, f) ==> exists i :: 0 <= i < |items| && items[i].id == id
    ensures IdsOf(items) == Matching(t, f)
  {
    hide Filter.Matches, Decoded;
  }

  lemma VisitedAreMarked(t: Table, f: Filter, items: seq<Event>)
    requires forall i :: 0 <= i < |items| ==> Visible(t, f, items[i])
    ensures forall i :: 0 <= i < |items| ==> items[i].id in t && Marked(items[i]) == MarkOf(t, items[i].id)
  {
    hide Filter.Matches, Decoded, Marked;
  }

  lemma PageSize(t: Table, f: Filter, page: Page)
    requires IsPage(t, f, page)
    ensures |page.items| <= f.limit && 1 <= f.limit
  {
  }

  lemma PageCount(n: nat, limit: int, last: nat, total: nat)
    requires 1 <= limit && last <= limit && (n > 0 ==> last > 0) && total == n * limit + last
    ensures n + 1 == PagesFor(total, limit)
  {
    if total > 0 {
      assert n == 0 || n * limit >= 0;
      assert last > 0;
      DivisionIsUnique(total + limit - 1, n + 1, last - 1, limit);
    }
  }

  /** The cursor of a page is accepted by the next request. */
  lemma CursorsAreAccepted(t: Table, f: Filter, page: Page)
    requires WellStored(t) && f.Normalize().Ok? && IsPage(t, f.Normalize().value, page) && page.next.Some?
    ensures f.(cursor := page.next).Normalize() == Ok(f.Normalize().value.(cursor := page.next))
  {
    hide IsPage, WellStored, Filter.Normalize;
    LastIsRecordable(t, f.Normalize().value, page);
    NormalizeTakesCursor(f, page.next.value);
  }

  lemma NormalizeTakesCursor(f: Filter, c: Cursor)
    requires f.Normalize().Ok? && c.occurredAt != ZERO_TIME && !Blank(c.id)
    ensures f.(cursor := Some(c)).Normalize() == Ok(f.Normalize().value.(cursor := Some(c)))
  {
    hide Trim, Blank;
  }

  lemma LastIsRecordable(t: Table, g: Filter, page: Page)
    requires WellStored(t) && IsPage(t, g, page) && page.next.Some?
    ensures !Blank(page.next.value.id) && page.next.value.occurredAt != ZERO_TIME
  {
    hide Decoded, Encoded, Above, Lists, Follows, Descending, MarksOf;
    var e := page.items[g.limit - 1];
    assert IsSelected(t, g, e);
    assert Recordable(Decoded(e.id, t[e.id]));
  }
}
