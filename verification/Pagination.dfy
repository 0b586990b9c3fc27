/** Listing request logs page by page. */
module Pagination {
  import opened Base
  import opened Sorting

  /** Instants; `NEVER` is Go's zero time. */
  type Instant = int
  const NEVER: Instant := 0
  const MAX_LIMIT := 200

  datatype Log = Log(org: Id, id: Id, startedAt: Instant, status: string, errorCode: Option<string>, requestModel: Option<string>,
                     apiKey: Option<Id>, provider: Option<Id>, model: Option<Id>)

  /** An organization's query: the time window and what the other columns must equal, if anything. */
  datatype Query = Query(org: Id, from: Instant, until: Instant, status: Option<string>, errorCode: Option<string>,
                         requestModel: Option<string>, apiKey: Option<Id>, provider: Option<Id>, model: Option<Id>)

  datatype Cursor = Cursor(startedAt: Instant, id: Id)

  predicate Wanted<T(==)>(filter: Option<T>, column: Option<T>) {
    filter.None? || filter == column
  }

  predicate Matches(q: Query, log: Log) {
    && log.org == q.org && q.from <= log.startedAt < q.until
    && Wanted(q.status, Some(log.status)) && Wanted(q.errorCode, log.errorCode) && Wanted(q.requestModel, log.requestModel)
    && Wanted(q.apiKey, log.apiKey) && Wanted(q.provider, log.provider) && Wanted(q.model, log.model)
  }

  predicate Behind(log: Log, cursor: Cursor) {
    log.startedAt < cursor.startedAt || (log.startedAt == cursor.startedAt && log.id < cursor.id)
  }

  predicate Newer(a: Log, b: Log) {
    a.startedAt > b.startedAt || (a.startedAt == b.startedAt && a.id > b.id)
  }

  function CursorAt(log: Log): Cursor {
    Cursor(log.startedAt, log.id)
  }

  predicate Selected(q: Query, after: Option<Cursor>, log: Log) {
    Matches(q, log) && (after.None? || Behind(log, after.value))
  }

  function Filtered(logs: seq<Log>, q: Query, after: Option<Cursor>): seq<Log> {
    if logs == [] then []
    else
      var n := |logs| - 1;
      Filtered(logs[..n], q, after) + if Selected(q, after, logs[n]) then [logs[n]] else []
  }

  /** All matching logs behind the cursor, newest first. */
  function Listing(logs: seq<Log>, q: Query, after: Option<Cursor>): seq<Log> {
    StableSort(Newer, Filtered(logs, q, after))
  }

  function FirstOf(logs: seq<Log>, n: nat): seq<Log> {
    if n < |logs| then logs[..n] else logs
  }

  /** What the handler answers; with limit 0 the code indexes an empty slice if there is any row. */
  datatype Response = Page(items: seq<Log>, next: Option<Cursor>) | InvalidCursor | Crash

  predicate UsableCursor(cursor: Cursor) {
    cursor.startedAt != NEVER && cursor.id != NIL
  }

  /** A row of the organization in the time window, equal in the columns asked for, and older than the cursor's. */
  ghost predicate Asked(q: Query, after: Option<Cursor>, log: Log) {
    && log.org == q.org && q.from <= log.startedAt < q.until
    && (q.status.Some? ==> log.status == q.status.value)
    && (q.errorCode.Some? ==> log.errorCode == Some(q.errorCode.value))
    && (q.requestModel.Some? ==> log.requestModel == Some(q.requestModel.value))
    && (q.apiKey.Some? ==> log.apiKey == Some(q.apiKey.value))
    && (q.provider.Some? ==> log.provider == Some(q.provider.value))
    && (q.model.Some? ==> log.model == Some(q.model.value))
    && (after.Some? ==> log.startedAt < after.value.startedAt || (log.startedAt == after.value.startedAt && log.id < after.value.id))
  }

  ghost predicate NewestFirst(items: seq<Log>) {
    forall i, j :: 0 <= i < j < |items| ==>
      items[i].startedAt > items[j].startedAt || (items[i].startedAt == items[j].startedAt && items[i].id > items[j].id)
  }

  /** Nothing asked for is missing from the page but what is older than all of it, and then the page is full and says so. */
  ghost predicate PageOf(logs: seq<Log>, q: Query, cursor: Option<Cursor>, limit: nat, items: seq<Log>, next: Option<Cursor>) {
    && |items| <= limit && NewestFirst(items)
    && (forall log :: log in items ==> log in logs && Asked(q, cursor, log))
    && (next.None? ==> forall log :: log in logs && Asked(q, cursor, log) ==> log in items)
    && (next.Some? ==>
          && |items| == limit > 0 && next == Some(Cursor(items[limit - 1].startedAt, items[limit - 1].id))
          && (exists log :: log in logs && Asked(q, cursor, log) && log !in items)
          && forall log :: log in logs && Asked(q, cursor, log) && log !in items ==> NewestFirst(items + [log]))
  }

  method List(logs: seq<Log>, q: Query, cursor: Option<Cursor>, limit: nat) returns (response: Response)
    requires limit <= MAX_LIMIT
    ensures response == Answer(logs, q, cursor, limit)
    ensures response == InvalidCursor <==> cursor.Some? && (cursor.value.startedAt == NEVER || cursor.value.id == NIL)
    ensures response.Page? && UniqueIds(logs) ==> PageOf(logs, q, cursor, limit, response.items, response.next)
  {
    if UniqueIds(logs) { PageMeans(logs, q, cursor, limit); }

    if cursor.Some? {
      if cursor.value.startedAt == NEVER || cursor.value.id == NIL {
        return InvalidCursor;
      }
    }
    var rows := FirstOf(Listing(logs, q, cursor), limit + 1);
    var nextCursor: Option<Cursor> := None;
    if |rows| > limit {
      rows := rows[..limit];
      if |rows| == 0 {
        return Crash;
      }
      var last := rows[|rows| - 1];
      nextCursor := Some(Cursor(last.startedAt, last.id));
    }
    response := Page(rows, nextCursor);
  }

  /** The page, in terms of the whole listing. */
  function Answer(logs: seq<Log>, q: Query, cursor: Option<Cursor>, limit: nat): Response {
    var all := Listing(logs, q, cursor);
    if cursor.Some? && !UsableCursor(cursor.value) then InvalidCursor
    else if |all| <= limit then Page(all, None)
    else if limit == 0 then Crash
    else Page(all[..limit], Some(CursorAt(all[limit - 1])))
  }

  /** The request fails hard exactly when it asks for no rows of a page that has one, on the first page or a later one. */
  lemma CrashesExactly(logs: seq<Log>, q: Query, cursor: Option<Cursor>, limit: nat)
    ensures Answer(logs, q, cursor, limit).Crash? <==>
              && limit == 0 && (cursor.Some? ==> cursor.value.startedAt != NEVER && cursor.value.id != NIL)
              && exists log :: log in logs && Asked(q, cursor, log)
  {
    NewerOrders();
    var all := Listing(logs, q, cursor);
    if all != [] {
      ListingMembers(logs, q, cursor, all[0]);
      SelectedIsAsked(q, cursor, all[0]);
    }
    if log :| log in logs && Asked(q, cursor, log) {
      ListingMembers(logs, q, cursor, log);
      SelectedIsAsked(q, cursor, log);
    }
  }

  // ----- The listing ----------------------------------------------------------------

  ghost predicate UniqueIds(logs: seq<Log>) {
    forall i, j :: 0 <= i < j < |logs| ==> logs[i].id != logs[j].id
  }

  lemma NewerOrders()
    ensures StrictWeak(Newer)
  {
  }

  lemma {:induction false} FilteredMembers(logs: seq<Log>, q: Query, after: Option<Cursor>, log: Log)
    ensures log in Filtered(logs, q, after) <==> log in logs && Selected(q, after, log)
  {
    if logs != [] {
      var n := |logs| - 1;
      FilteredMembers(logs[..n], q, after, log);
      assert logs == logs[..n] + [logs[n]];
    }
  }

  lemma {:induction false} FilteredComparable(logs: seq<Log>, q: Query, after: Option<Cursor>)
    requires UniqueIds(logs)
    ensures Comparable(Newer, Filtered(logs, q, after))
  {
    if logs != [] {
      var n := |logs| - 1;
      FilteredComparable(logs[..n], q, after);
      var earlier := Filtered(logs[..n], q, after);
      forall i | 0 <= i < |earlier| ensures earlier[i].id != logs[n].id {
        FilteredMembers(logs[..n], q, after, earlier[i]);
      }
    }
  }

  /** Exactly the selected logs, each once, strictly newest first. */
  lemma ListingMembers(logs: seq<Log>, q: Query, after: Option<Cursor>, log: Log)
    ensures log in Listing(logs, q, after) <==> log in logs && Selected(q, after, log)
    ensures UniqueIds(logs) ==> Strict(Newer, Listing(logs, q, after))
  {
    NewerOrders();
    SortedMembers(Newer, Filtered(logs, q, after), log);
    FilteredMembers(logs, q, after, log);
    if UniqueIds(logs) {
      FilteredComparable(logs, q, after);
      StableSortStrict(Newer, Filtered(logs, q, after));
    }
  }

  /** Behind the last row of a page comes exactly the rest of the listing, even if newer rows have arrived. */
  lemma RestOfListing(logs: seq<Log>, more: seq<Log>, q: Query, after: Option<Cursor>, n: nat)
    requires UniqueIds(logs) && UniqueIds(more) && 0 < n <= |Listing(logs, q, after)|
    requires Extends(logs, more, CursorAt(Listing(logs, q, after)[n - 1]))
    ensures Listing(more, q, Some(CursorAt(Listing(logs, q, after)[n - 1]))) == Listing(logs, q, after)[n..]
  {
    var all := Listing(logs, q, after);
    var at := CursorAt(all[n - 1]);
    var rest := Listing(more, q, Some(at));
    ListingMembers(logs, q, after, all[n - 1]);
    ListingMembers(more, q, Some(at), all[n - 1]);
    forall log ensures log in all[n..] <==> log in rest {
      ListingMembers(logs, q, after, log);
      ListingMembers(more, q, Some(at), log);
      TailMembers(all, n, log);
      BehindBehind(after, all[n - 1], log);
    }
    NewerOrders();
    StrictUnique(Newer, all[n..], rest);
  }

  /** Nothing is removed, and nothing is added behind the cursor. */
  ghost predicate Extends(logs: seq<Log>, more: seq<Log>, cursor: Cursor) {
    && (forall log :: log in logs ==> log in more)
    && (forall log :: log in more && log !in logs ==> !Behind(log, cursor))
  }

  lemma TailMembers(all: seq<Log>, n: nat, log: Log)
    requires Strict(Newer, all) && 0 < n <= |all|
    ensures log in all[n..] <==> log in all && Behind(log, CursorAt(all[n - 1]))
  {
    if log in all[n..] {
      var i :| 0 <= i < |all| - n && all[n..][i] == log;
      assert Newer(all[n - 1], all[n + i]);
    }
    if log in all && Behind(log, CursorAt(all[n - 1])) {
      var i :| 0 <= i < |all| && all[i] == log;
      assert i < n - 1 ==> Newer(all[i], all[n - 1]);
      assert all[n..][i - n] == log;
    }
  }

  lemma BehindBehind(after: Option<Cursor>, last: Log, log: Log)
    requires after.Some? ==> Behind(last, after.value)
    ensures Behind(log, CursorAt(last)) ==> after.None? || Behind(log, after.value)
  {
  }

  lemma SelectedIsAsked(q: Query, after: Option<Cursor>, log: Log)
    ensures Selected(q, after, log) <==> Asked(q, after, log)
  {
  }

  /** A page, row by row. */
  lemma PageMeans(logs: seq<Log>, q: Query, cursor: Option<Cursor>, limit: nat)
    requires UniqueIds(logs)
    ensures var page := Answer(logs, q, cursor, limit);
            page.Page? ==> PageOf(logs, q, cursor, limit, page.items, page.next)
  {
    var all, page := Listing(logs, q, cursor), Answer(logs, q, cursor, limit);
    forall log ensures log in all <==> log in logs && Asked(q, cursor, log) {
      ListingMembers(logs, q, cursor, log);
      SelectedIsAsked(q, cursor, log);
    }
    ListingMembers(logs, q, cursor, Log(0, 0, 0, "", None, None, None, None, None));
    assert NewestFirst(all);
    if page.Page? && page.next.Some? { FirstPage(all, limit); }
  }

  lemma FirstPage(all: seq<Log>, limit: nat)
    requires NewestFirst(all) && limit < |all|
    ensures NewestFirst(all[..limit]) && all[limit] !in all[..limit]
    ensures forall log :: log in all && log !in all[..limit] ==> NewestFirst(all[..limit] + [log])
  {
    assert forall i :: 0 <= i < limit ==> all[..limit][i] == all[i] && all[i] in all[..limit];
    forall log | log in all && log !in all[..limit] ensures NewestFirst(all[..limit] + [log]) {
      var j :| 0 <= j < |all| && all[j] == log;
      assert j >= limit;
    }
  }

  // ----- Following the cursor -------------------------------------------------------

  /** Rows as the gateway writes them: started at a real time, under a generated id. */
  ghost predicate Stored(logs: seq<Log>) {
    UniqueIds(logs) && forall i :: 0 <= i < |logs| ==> UsableCursor(CursorAt(logs[i]))
  }

  /** Everything a client sees that asks for a page of each of the tables in turn, and whether it got to the end. */
  function Crawl(tables: seq<seq<Log>>, q: Query, cursor: Option<Cursor>, limit: nat): (seq<Log>, bool)
    decreases |tables|
  {
    if tables == [] then ([], false)
    else
      match Answer(tables[0], q, cursor, limit)
      case Page(items, None) => (items, true)
      case Page(items, Some(next)) =>
        var (more, ended) := Crawl(tables[1..], q, Some(next), limit);
        (items + more, ended)
      case _ => ([], false)
  }

  /** Between two pages, rows are only added, and only in front of the last row delivered. */
  ghost predicate GrowsInFront(tables: seq<seq<Log>>, q: Query, cursor: Option<Cursor>, limit: nat)
    decreases |tables|
  {
    |tables| > 1 && Answer(tables[0], q, cursor, limit).Page? && Answer(tables[0], q, cursor, limit).next.Some? ==>
      var next := Answer(tables[0], q, cursor, limit).next;
      Extends(tables[0], tables[1], next.value) && GrowsInFront(tables[1..], q, next, limit)
  }

  /** The pages together are the listing at the time of the first page, in order, without gap or repetition. */
  lemma {:induction false} PagesComplete(tables: seq<seq<Log>>, q: Query, cursor: Option<Cursor>, limit: nat)
    requires limit > 0 && tables != [] && (forall i :: 0 <= i < |tables| ==> Stored(tables[i]))
    requires cursor.Some? ==> UsableCursor(cursor.value)
    requires GrowsInFront(tables, q, cursor, limit)
    ensures var (items, ended) := Crawl(tables, q, cursor, limit);
            && items == FirstOf(Listing(tables[0], q, cursor), |tables| * limit)
            && (ended <==> |Listing(tables[0], q, cursor)| <= |tables| * limit)
    decreases |tables|
  {
    var all := Listing(tables[0], q, cursor);
    assert Stored(tables[0]);
    OnePageMore(|tables|, limit);
    if |all| > limit {
      var next := CursorAt(all[limit - 1]);
      ListingMembers(tables[0], q, cursor, all[limit - 1]);
      if |tables| > 1 {
        assert Stored(tables[1]);
        PagesComplete(tables[1..], q, Some(next), limit);
        RestOfListing(tables[0], tables[1], q, cursor, limit);
        JoinPages(all, limit, (|tables| - 1) * limit);
      }
    }
  }

  lemma OnePageMore(n: nat, limit: nat)
    requires n > 0
    ensures n * limit == limit + (n - 1) * limit && (n - 1) * limit >= 0
  {
  }

  lemma JoinPages(all: seq<Log>, n: nat, m: nat)
    requires n <= |all|
    ensures all[..n] + FirstOf(all[n..], m) == FirstOf(all, n + m)
  {
  }
}
