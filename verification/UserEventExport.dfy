/** Keyset paging through the events of identified users. */
module UserEventExport {
  import opened EventTable

  /** An exported row; ids are numbered in the database's order. */
  datatype Event = Event(id: int, updatedAt: int, userId: Option<string>)

  /** What a cursor text decodes to. */
  datatype Cursor = NoCursor | Malformed | After(updatedAt: int, id: int)

  datatype Request = Request(cursor: Cursor, since: Option<int>, until: int, userId: Option<string>, limit: Option<nat>)

  datatype Response =
    | Page(data: seq<Event>, nextCursor: Cursor, hasMore: bool)
    | BadRequest(message: string)

  const DEFAULT_LIMIT: nat := 100

  function Limit(r: Request): nat {
    if r.limit.Some? then r.limit.value else DEFAULT_LIMIT
  }

  /** Request validation rejects a limit below 1. */
  ghost predicate Validated(r: Request) {
    r.limit.Some? ==> 1 <= r.limit.value <= 1000
  }

  /** Neither a missing nor a malformed starting point. */
  predicate CanStart(r: Request) {
    r.cursor.After? || (r.cursor.NoCursor? && r.since.Some?)
  }

  // ---------------------------------------------------------------- the query

  datatype Condition = HasUser | AfterCursor(at: int, id: int) | Since(at: int) | Until(at: int) | UserIs(userId: string)

  predicate Meets(e: Event, c: Condition) {
    match c
    case HasUser => e.userId.Some?
    case AfterCursor(at, id) => at < e.updatedAt || (at == e.updatedAt && id < e.id)
    case Since(at) => at <= e.updatedAt
    case Until(at) => e.updatedAt <= at
    case UserIs(userId) => e.userId == Some(userId)
  }

  predicate MeetsAll(e: Event, conditions: seq<Condition>) {
    forall i | 0 <= i < |conditions| :: Meets(e, conditions[i])
  }

  lemma Pushed(conditions: seq<Condition>, c: Condition)
    ensures forall e :: MeetsAll(e, conditions + [c]) <==> MeetsAll(e, conditions) && Meets(e, c)
  {
    var all := conditions + [c];
    assert all[|conditions|] == c;
    assert forall i | 0 <= i < |conditions| :: all[i] == conditions[i];
  }

  predicate Before(a: Event, b: Event) {
    a.updatedAt < b.updatedAt || (a.updatedAt == b.updatedAt && a.id < b.id)
  }

  function Filter(rows: seq<Event>, p: Event -> bool): seq<Event> {
    if rows == [] then [] else (if p(rows[0]) then [rows[0]] else []) + Filter(rows[1..], p)
  }

  function Insert(e: Event, rows: seq<Event>): seq<Event> {
    if rows == [] || !Before(rows[0], e) then [e] + rows else [rows[0]] + Insert(e, rows[1..])
  }

  /** `ORDER BY updated_at ASC, id ASC`. */
  function Sort(rows: seq<Event>): seq<Event> {
    if rows == [] then [] else Insert(rows[0], Sort(rows[1..]))
  }

  function Query(table: seq<Event>, conditions: seq<Condition>, limit: nat): seq<Event> {
    var rows := Sort(Filter(table, e => MeetsAll(e, conditions)));
    if |rows| > limit then rows[..limit] else rows
  }

  // ---------------------------------------------------------------- what a request asks for

  /** The rows a request is about, stated without the conditions built for it. */
  predicate Wanted(e: Event, r: Request) {
    && e.userId.Some?
    && (if r.cursor.After? then r.cursor.updatedAt < e.updatedAt || (r.cursor.updatedAt == e.updatedAt && r.cursor.id < e.id)
        else r.since.Some? ==> r.since.value <= e.updatedAt)
    && e.updatedAt <= r.until
    && (r.userId.Some? && r.userId.value != "" ==> e.userId == r.userId)
  }

  /** All of them, sorted: what an export is meant to deliver. */
  function FullList(table: seq<Event>, r: Request): seq<Event> {
    Sort(Filter(table, e => Wanted(e, r)))
  }

  ghost function StartConditions(r: Request): seq<Condition>
    requires CanStart(r)
  {
    [HasUser] + [if r.cursor.After? then AfterCursor(r.cursor.updatedAt, r.cursor.id) else Since(r.since.value)]
  }

  ghost function Conditions(r: Request): seq<Condition>
    requires CanStart(r)
  {
    if r.userId.Some? && r.userId.value != "" then StartConditions(r) + [Until(r.until)] + [UserIs(r.userId.value)]
    else StartConditions(r) + [Until(r.until)]
  }

  lemma ConditionsMean(r: Request)
    requires CanStart(r)
    ensures forall e :: MeetsAll(e, Conditions(r)) <==> Wanted(e, r)
  {
    Pushed([], HasUser);
    assert [] + [HasUser] == [HasUser];
    Pushed([HasUser], StartConditions(r)[1]);
    Pushed(StartConditions(r), Until(r.until));
    if r.userId.Some? {
      Pushed(StartConditions(r) + [Until(r.until)], UserIs(r.userId.value));
    }
  }

  function PageOf(table: seq<Event>, r: Request): Response {
    if r.cursor.NoCursor? && r.since.None? then BadRequest("Either cursor or since parameter is required")
    else if r.cursor.Malformed? then BadRequest("Invalid cursor format")
    else
      var rows := FullList(table, r);
      var hasMore := |rows| > Limit(r);
      var data := if hasMore then rows[..Limit(r)] else rows;
      Page(data, if hasMore && |data| > 0 then After(data[|data| - 1].updatedAt, data[|data| - 1].id) else NoCursor, hasMore)
  }

  /** The conditions are pushed one by one; the query asks for one row more than the limit. */
  method GetUserEvents(table: seq<Event>, r: Request) returns (response: Response)
    ensures response == PageOf(table, r)
  {
    if r.cursor.NoCursor? && r.since.None? {
      return BadRequest("Either cursor or since parameter is required");
    }
    var limit := if r.limit.Some? then r.limit.value else DEFAULT_LIMIT;
    if r.cursor.Malformed? {
      return BadRequest("Invalid cursor format");
    }
    var conditions := [HasUser];
    if r.cursor.After? {
      conditions := conditions + [AfterCursor(r.cursor.updatedAt, r.cursor.id)];
    } else if r.since.Some? {
      conditions := conditions + [Since(r.since.value)];
    }
    conditions := conditions + [Until(r.until)];
    if r.userId.Some? && r.userId.value != "" {
      conditions := conditions + [UserIs(r.userId.value)];
    }
    ConditionsMean(r);
    SameFilter(table, e => MeetsAll(e, conditions), e => Wanted(e, r));
    var rows := Query(table, conditions, limit + 1);
    var hasMore := |rows| > limit;
    var data := if hasMore then rows[..limit] else rows;
    var nextCursor := NoCursor;
    if hasMore && |data| > 0 {
      var lastItem := data[|data| - 1];
      nextCursor := After(lastItem.updatedAt, lastItem.id);
    }
    return Page(data, nextCursor, hasMore);
  }

  // ---------------------------------------------------------------- sorting and filtering

  ghost predicate Sorted(rows: seq<Event>) {
    forall i, j | 0 <= i < j < |rows| :: !Before(rows[j], rows[i])
  }

  lemma {:induction false} SameFilter(rows: seq<Event>, p: Event -> bool, q: Event -> bool)
    requires forall e :: p(e) <==> q(e)
    ensures Filter(rows, p) == Filter(rows, q)
  {
    if rows != [] { SameFilter(rows[1..], p, q); }
  }

  lemma {:induction false} FilterTwice(rows: seq<Event>, p: Event -> bool, q: Event -> bool)
    ensures Filter(Filter(rows, p), q) == Filter(rows, e => p(e) && q(e))
  {
    if rows != [] {
      FilterTwice(rows[1..], p, q);
      if p(rows[0]) {
        assert ([rows[0]] + Filter(rows[1..], p))[1..] == Filter(rows[1..], p);
      } else {
        assert [] + Filter(rows[1..], p) == Filter(rows[1..], p);
      }
    }
  }

  lemma {:induction false} FilterMembers(rows: seq<Event>, p: Event -> bool, e: Event)
    ensures e in Filter(rows, p) <==> e in rows && p(e)
  {
    if rows != [] {
      FilterMembers(rows[1..], p, e);
      assert rows == [rows[0]] + rows[1..];
    }
  }

  lemma {:induction false} InsertKeepsSorted(e: Event, rows: seq<Event>)
    requires Sorted(rows)
    ensures Sorted(Insert(e, rows)) && multiset(Insert(e, rows)) == multiset(rows) + multiset{e}
  {
    if rows != [] && Before(rows[0], e) {
      InsertKeepsSorted(e, rows[1..]);
      var rest := Insert(e, rows[1..]);
      assert rows == [rows[0]] + rows[1..];
      forall j | 0 <= j < |rest| ensures !Before(rest[j], rows[0]) {
        assert rest[j] in multiset(rest);
        assert rest[j] in rows[1..] || rest[j] == e;
      }
    }
  }

  /** Sorting orders the rows and keeps all of them. */
  lemma {:induction false} SortSorts(rows: seq<Event>)
    ensures Sorted(Sort(rows)) && multiset(Sort(rows)) == multiset(rows)
  {
    if rows != [] {
      SortSorts(rows[1..]);
      InsertKeepsSorted(rows[0], Sort(rows[1..]));
      assert rows == [rows[0]] + rows[1..];
    }
  }

  lemma {:induction false} FilterInsert(e: Event, rows: seq<Event>, p: Event -> bool)
    requires Sorted(rows)
    ensures Filter(Insert(e, rows), p) == if p(e) then Insert(e, Filter(rows, p)) else Filter(rows, p)
  {
    if rows == [] || !Before(rows[0], e) {
      assert ([e] + rows)[1..] == rows;
      if p(e) && Filter(rows, p) != [] {
        var first := Filter(rows, p)[0];
        FilterMembers(rows, p, first);
        assert !Before(first, e);
      }
    } else {
      assert ([rows[0]] + Insert(e, rows[1..]))[1..] == Insert(e, rows[1..]);
      FilterInsert(e, rows[1..], p);
      if p(rows[0]) {
        assert ([rows[0]] + Filter(rows[1..], p))[1..] == Filter(rows[1..], p);
      } else {
        assert [] + Filter(rows[1..], p) == Filter(rows[1..], p);
      }
    }
  }

  /** Filtering the sorted list is sorting the filtered one. */
  lemma {:induction false} FilterSort(rows: seq<Event>, p: Event -> bool)
    ensures Filter(Sort(rows), p) == Sort(Filter(rows, p))
  {
    if rows != [] {
      SortSorts(rows[1..]);
      FilterSort(rows[1..], p);
      FilterInsert(rows[0], Sort(rows[1..]), p);
      if p(rows[0]) {
        assert ([rows[0]] + Filter(rows[1..], p))[1..] == Filter(rows[1..], p);
      } else {
        assert [] + Filter(rows[1..], p) == Filter(rows[1..], p);
      }
    }
  }

  // ---------------------------------------------------------------- the next page

  predicate Later(e: Event, at: int, id: int) {
    at < e.updatedAt || (at == e.updatedAt && id < e.id)
  }

  /** How many rows of a sorted list are not after a position. */
  function Skipped(rows: seq<Event>, at: int, id: int): (n: nat)
    ensures n <= |rows|
  {
    if rows == [] || Later(rows[0], at, id) then 0 else 1 + Skipped(rows[1..], at, id)
  }

  lemma {:induction false} AllLater(rows: seq<Event>, at: int, id: int)
    requires forall i | 0 <= i < |rows| :: Later(rows[i], at, id)
    ensures Filter(rows, e => Later(e, at, id)) == rows
  {
    if rows != [] {
      AllLater(rows[1..], at, id);
      assert rows == [rows[0]] + rows[1..];
    }
  }

  lemma {:induction false} LaterIsSuffix(rows: seq<Event>, at: int, id: int)
    requires Sorted(rows)
    ensures Filter(rows, e => Later(e, at, id)) == rows[Skipped(rows, at, id)..]
  {
    if rows == [] {
    } else if Later(rows[0], at, id) {
      AllLater(rows, at, id);
    } else {
      LaterIsSuffix(rows[1..], at, id);
    }
  }

  lemma {:induction false} SkippedUpTo(rows: seq<Event>, k: nat)
    requires Sorted(rows) && k < |rows|
    ensures var n := Skipped(rows, rows[k].updatedAt, rows[k].id);
            && k < n
            && (n == k + 1 <==> k + 1 == |rows| || Before(rows[k], rows[k + 1]))
  {
    var at, id := rows[k].updatedAt, rows[k].id;
    assert !Later(rows[0], at, id) by { if k > 0 { assert !Before(rows[k], rows[0]); } }
    if k > 0 {
      SkippedUpTo(rows[1..], k - 1);
    } else if |rows| > 1 {
      assert Later(rows[1], at, id) <==> Before(rows[0], rows[1]);
    }
  }

  function Next(r: Request, last: Event): Request {
    r.(cursor := After(last.updatedAt, last.id))
  }

  /** The request with the cursor of a delivered row is about the rows after it. */
  lemma NextList(table: seq<Event>, r: Request, last: Event)
    requires CanStart(r) && Wanted(last, r)
    ensures FullList(table, Next(r, last)) == FullList(table, r)[Skipped(FullList(table, r), last.updatedAt, last.id)..]
  {
    var at, id := last.updatedAt, last.id;
    var wanted, later := (e: Event) => Wanted(e, r), (e: Event) => Later(e, at, id);
    FilterTwice(table, wanted, later);
    SameFilter(table, e => wanted(e) && later(e), e => Wanted(e, Next(r, last)));
    FilterSort(Filter(table, wanted), later);
    SortSorts(Filter(table, wanted));
    LaterIsSuffix(FullList(table, r), at, id);
  }

  lemma FullListWanted(table: seq<Event>, r: Request, k: nat)
    requires k < |FullList(table, r)|
    ensures Wanted(FullList(table, r)[k], r) && Sorted(FullList(table, r))
  {
    var rows := Filter(table, e => Wanted(e, r));
    SortSorts(rows);
    assert FullList(table, r)[k] in multiset(Sort(rows));
    FilterMembers(table, e => Wanted(e, r), FullList(table, r)[k]);
  }

  /** A further page is about strictly fewer rows: those not delivered, except rows that tie with the last one
      delivered. */
  lemma NextPage(table: seq<Event>, r: Request)
    requires CanStart(r) && Validated(r) && |FullList(table, r)| > Limit(r)
    ensures var rows, n := FullList(table, r), Limit(r);
            var skipped := Skipped(rows, rows[n - 1].updatedAt, rows[n - 1].id);
            && FullList(table, Next(r, rows[n - 1])) == rows[skipped..]
            && n <= skipped && (skipped == n <==> Before(rows[n - 1], rows[n]))
  {
    FullListWanted(table, r, Limit(r) - 1);
    NextList(table, r, FullList(table, r)[Limit(r) - 1]);
    SkippedUpTo(FullList(table, r), Limit(r) - 1);
  }

  /** What a client receives in all by following next_cursor until there is none. That this is defined says that
      following cursors ends. */
  ghost function Export(table: seq<Event>, r: Request): seq<Event>
    requires CanStart(r) && Validated(r)
    decreases |FullList(table, r)|
  {
    var page := PageOf(table, r);
    if !page.nextCursor.After? then page.data
    else
      NextPage(table, r);
      page.data + Export(table, r.(cursor := page.nextCursor))
  }

  /** The same, told on the sorted list: a page, and then the rows that do not tie with its last one or precede it. */
  ghost function Pages(rows: seq<Event>, limit: nat): seq<Event>
    requires Sorted(rows) && limit >= 1
    decreases |rows|
  {
    if |rows| <= limit then rows
    else
      var n := AfterPage(rows, limit);
      rows[..limit] + Pages(rows[n..], limit)
  }

  ghost function AfterPage(rows: seq<Event>, limit: nat): (n: nat)
    requires Sorted(rows) && 1 <= limit < |rows|
    ensures limit <= n <= |rows| && (n == limit <==> Before(rows[limit - 1], rows[limit]))
  {
    SkippedUpTo(rows, limit - 1);
    Skipped(rows, rows[limit - 1].updatedAt, rows[limit - 1].id)
  }

  lemma FullListSorted(table: seq<Event>, r: Request)
    ensures Sorted(FullList(table, r))
  {
    SortSorts(Filter(table, e => Wanted(e, r)));
  }

  lemma {:induction false} ExportIsPages(table: seq<Event>, r: Request)
    requires CanStart(r) && Validated(r)
    ensures Sorted(FullList(table, r)) && Export(table, r) == Pages(FullList(table, r), Limit(r))
    decreases |FullList(table, r)|
  {
    FullListSorted(table, r);
    var rows, n := FullList(table, r), Limit(r);
    if |rows| > n {
      NextPage(table, r);
      ExportIsPages(table, Next(r, rows[n - 1]));
    }
  }

  predicate Tie(a: Event, b: Event) {
    a.updatedAt == b.updatedAt && a.id == b.id
  }

  ghost predicate NoTies(rows: seq<Event>) {
    rows != [] ==> (forall e | e in rows[1..] :: !Tie(rows[0], e)) && NoTies(rows[1..])
  }

  lemma {:induction false} InsertMembers(e: Event, rows: seq<Event>)
    ensures forall x :: x in Insert(e, rows) <==> x == e || x in rows
  {
    if rows != [] && Before(rows[0], e) {
      InsertMembers(e, rows[1..]);
      assert rows == [rows[0]] + rows[1..];
    }
  }

  lemma {:induction false} InsertTies(e: Event, rows: seq<Event>)
    ensures NoTies(Insert(e, rows)) <==> NoTies(rows) && forall x | x in rows :: !Tie(e, x)
  {
    if rows == [] || !Before(rows[0], e) {
      assert ([e] + rows)[1..] == rows;
    } else {
      var rest := Insert(e, rows[1..]);
      assert ([rows[0]] + rest)[1..] == rest;
      InsertTies(e, rows[1..]);
      InsertMembers(e, rows[1..]);
      assert rows == [rows[0]] + rows[1..];
    }
  }

  lemma SortMembers(rows: seq<Event>)
    ensures forall e :: e in Sort(rows) <==> e in rows
  {
    SortSorts(rows);
    forall e ensures e in Sort(rows) <==> e in rows {
      assert e in multiset(Sort(rows)) <==> e in multiset(rows);
    }
  }

  lemma {:induction false} SortTies(rows: seq<Event>)
    ensures NoTies(Sort(rows)) <==> NoTies(rows)
  {
    if rows != [] {
      SortTies(rows[1..]);
      InsertTies(rows[0], Sort(rows[1..]));
      SortMembers(rows[1..]);
    }
  }

  /** Sorted rows without ties ascend. */
  lemma {:induction false} Ascends(rows: seq<Event>, k: nat)
    requires Sorted(rows) && 0 < k < |rows| && NoTies(rows)
    ensures Before(rows[k - 1], rows[k])
  {
    if k > 1 {
      Ascends(rows[1..], k - 1);
    } else {
      assert rows[1] in rows[1..];
      assert !Before(rows[1], rows[0]) && !Tie(rows[0], rows[1]);
    }
  }

  lemma {:induction false} NeverMore(rows: seq<Event>, limit: nat)
    requires Sorted(rows) && limit >= 1
    ensures |Pages(rows, limit)| <= |rows|
    decreases |rows|
  {
    if |rows| > limit {
      NeverMore(rows[AfterPage(rows, limit)..], limit);
    }
  }

  /** No tie straddles a page boundary. */
  ghost predicate CleanBoundaries(rows: seq<Event>, limit: nat)
    requires limit >= 1
  {
    forall k: nat | 0 < k * limit < |rows| :: Before(rows[k * limit - 1], rows[k * limit])
  }

  lemma BoundariesAfterPage(rows: seq<Event>, limit: nat)
    requires 1 <= limit < |rows|
    ensures CleanBoundaries(rows, limit) <==> Before(rows[limit - 1], rows[limit]) && CleanBoundaries(rows[limit..], limit)
  {
    var rest := rows[limit..];
    if CleanBoundaries(rows, limit) {
      assert Before(rows[1 * limit - 1], rows[1 * limit]);
      forall k: nat | 0 < k * limit < |rest| ensures Before(rest[k * limit - 1], rest[k * limit]) {
        assert (k + 1) * limit == k * limit + limit;
        assert Before(rows[(k + 1) * limit - 1], rows[(k + 1) * limit]);
      }
    }
    if Before(rows[limit - 1], rows[limit]) && CleanBoundaries(rest, limit) {
      forall k: nat | 0 < k * limit < |rows| ensures Before(rows[k * limit - 1], rows[k * limit]) {
        assert (k - 1) * limit == k * limit - limit;
        if k > 1 {
          assert 0 < (k - 1) * limit;
          assert Before(rest[(k - 1) * limit - 1], rest[(k - 1) * limit]);
        }
      }
    }
  }

  lemma OnePage(rows: seq<Event>, limit: nat)
    requires limit >= 1 && |rows| <= limit
    ensures CleanBoundaries(rows, limit)
  {
    forall k: nat | k > 0 ensures k * limit >= |rows| {
      assert k * limit >= limit;
    }
  }

  lemma SameRest(page: seq<Event>, a: seq<Event>, b: seq<Event>)
    ensures page + a == page + b <==> a == b
  {
    assert (page + a)[|page|..] == a;
    assert (page + b)[|page|..] == b;
  }

  lemma {:induction false} PagesIffCleanBoundaries(rows: seq<Event>, limit: nat)
    requires Sorted(rows) && limit >= 1
    ensures Pages(rows, limit) == rows <==> CleanBoundaries(rows, limit)
    decreases |rows|
  {
    if |rows| <= limit {
      OnePage(rows, limit);
    } else {
      BoundariesAfterPage(rows, limit);
      var n := AfterPage(rows, limit);
      NeverMore(rows[n..], limit);
      if n == limit {
        PagesIffCleanBoundaries(rows[limit..], limit);
        SameRest(rows[..limit], Pages(rows[limit..], limit), rows[limit..]);
        assert rows == rows[..limit] + rows[limit..];
      }
    }
  }

  /** The exact condition, for every limit: the export is complete if and only if no two rows with the same updated_at
      and id come to lie on the two sides of a page boundary of the full list. */
  lemma CompleteIffCleanBoundaries(table: seq<Event>, r: Request)
    requires CanStart(r) && Validated(r)
    ensures Export(table, r) == FullList(table, r) <==> CleanBoundaries(FullList(table, r), Limit(r))
  {
    ExportIsPages(table, r);
    PagesIffCleanBoundaries(FullList(table, r), Limit(r));
  }

  /** Rows without ties have clean boundaries, whatever the limit. */
  lemma NoTiesCleanBoundaries(rows: seq<Event>, limit: nat)
    requires Sorted(rows) && NoTies(rows) && limit >= 1
    ensures CleanBoundaries(rows, limit)
  {
    forall k: nat | 0 < k * limit < |rows| ensures Before(rows[k * limit - 1], rows[k * limit]) {
      Ascends(rows, k * limit);
    }
  }

  /** Keyset paging is complete: if no two rows the request wants share updated_at and id, following next_cursor
      delivers the full sorted list, with no gap and no repetition, whatever the limit. */
  lemma PagesAreComplete(table: seq<Event>, r: Request)
    requires CanStart(r) && Validated(r) && NoTies(Filter(table, e => Wanted(e, r)))
    ensures Export(table, r) == FullList(table, r)
    ensures multiset(Export(table, r)) == multiset(Filter(table, e => Wanted(e, r))) && Sorted(Export(table, r))
  {
    var rows := Filter(table, e => Wanted(e, r));
    SortTies(rows);
    SortSorts(rows);
    NoTiesCleanBoundaries(FullList(table, r), Limit(r));
    CompleteIffCleanBoundaries(table, r);
  }

  /** Two rows that tie, a page each: the second is never delivered. */
  lemma TieIsLost()
    ensures var a, b := Event(1, 5, Some("u")), Event(1, 5, Some("v"));
            var r := Request(NoCursor, Some(0), 9, None, Some(1));
            FullList([a, b], r) == [a, b] && Export([a, b], r) != [a, b]
  {
    var a, b := Event(1, 5, Some("u")), Event(1, 5, Some("v"));
    var r := Request(NoCursor, Some(0), 9, None, Some(1));
    assert [a, b][1..] == [b] && [b][1..] == [];
    assert Filter([b], e => Wanted(e, r)) == [b];
    assert Filter([a, b], e => Wanted(e, r)) == [a, b];
    assert Sort([b]) == [b] && Sort([a, b]) == [a, b];
    assert !Before([a, b][1 * 1 - 1], [a, b][1 * 1]);
    CompleteIffCleanBoundaries([a, b], r);
  }
}
