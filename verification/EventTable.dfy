/** Rows of the `events` table and what a deduplicating read of it returns. */
module EventTable {

  datatype Option<+T> = None | Some(value: T)

  /** The sorting key of the table, which is also its deduplication key. */
  datatype EventKey = EventKey(sessionId: string, dedupToken: string)

  /** A tracking event. `attributes` stands for the traffic, device, geo and custom columns that
      are copied from the session without being computed on. */
  datatype TrackingEvent = TrackingEvent(
    workspaceId: string,
    sessionId: string,
    dedupToken: string,
    version: int,
    createdAt: int,
    updatedAt: int,
    name: string,
    path: string,
    pageNumber: int,
    duration: int,
    maxScroll: int,
    previousPath: string,
    goalName: string,
    goalValue: real,
    properties: map<string, string>,
    enteredAt: int,
    exitedAt: int,
    goalTimestamp: Option<int>,
    attributes: map<string, string>)
  {
    function Key(): EventKey {
      EventKey(sessionId, dedupToken)
    }
  }

  type TableView = map<EventKey, TrackingEvent>

  /** ReplacingMergeTree(_version): a row replaces the row of its key unless that one is newer. */
  function Upsert(view: TableView, row: TrackingEvent): TableView {
    if row.Key() in view && view[row.Key()].version > row.version then view else view[row.Key() := row]
  }

  function Merge(view: TableView, rows: seq<TrackingEvent>): TableView
    decreases rows
  {
    if rows == [] then view else Merge(Upsert(view, rows[0]), rows[1..])
  }

  /** What `SELECT ... FROM events FINAL` returns after the rows were inserted in this order. */
  function View(rows: seq<TrackingEvent>): TableView {
    Merge(map[], rows)
  }

  /** Row i is the one the engine keeps for its key: greatest version, later insert on ties. */
  ghost predicate IsKept(rows: seq<TrackingEvent>, i: nat) {
    && i < |rows|
    && forall j | 0 <= j < |rows| && rows[j].Key() == rows[i].Key() ::
         rows[j].version < rows[i].version || (rows[j].version == rows[i].version && j <= i)
  }

  lemma {:induction false} MergeAppend(view: TableView, a: seq<TrackingEvent>, b: seq<TrackingEvent>)
    ensures Merge(view, a + b) == Merge(Merge(view, a), b)
    decreases a
  {
    if a == [] {
      assert a + b == b;
    } else {
      assert (a + b)[0] == a[0] && (a + b)[1..] == a[1..] + b;
      MergeAppend(Upsert(view, a[0]), a[1..], b);
    }
  }

  lemma InsertingInTwoParts(table: seq<TrackingEvent>, a: seq<TrackingEvent>, b: seq<TrackingEvent>)
    ensures Merge(View(table + a), b) == Merge(View(table), a + b)
  {
    MergeAppend(map[], table, a);
    MergeAppend(View(table), a, b);
  }

  lemma ViewAppend(a: seq<TrackingEvent>, row: TrackingEvent)
    ensures View(a + [row]) == Upsert(View(a), row)
  {
    MergeAppend(map[], a, [row]);
    assert Merge(View(a), [row]) == Merge(Upsert(View(a), row), []);
  }

  /** Every key of the view belongs to a kept row, and that row is what the view shows. */
  lemma {:induction false} ViewShowsKeptRow(rows: seq<TrackingEvent>, k: EventKey) returns (i: nat)
    requires k in View(rows)
    ensures IsKept(rows, i) && rows[i].Key() == k && View(rows)[k] == rows[i]
  {
    var n := |rows| - 1;
    var init, last := rows[..n], rows[n];
    assert rows == init + [last];
    ViewAppend(init, last);
    if last.Key() == k && View(rows)[k] == last {
      i := n;
      if k in View(init) {
        var p := ViewShowsKeptRow(init, k);
      } else {
        forall j | 0 <= j < n ensures rows[j].Key() != k {
          InsertedKeyIsVisible(init, j);
        }
      }
    } else {
      i := ViewShowsKeptRow(init, k);
    }
  }

  lemma {:induction false} InsertedKeyIsVisible(rows: seq<TrackingEvent>, i: nat)
    requires i < |rows|
    ensures rows[i].Key() in View(rows)
  {
    var n := |rows| - 1;
    assert rows == rows[..n] + [rows[n]];
    ViewAppend(rows[..n], rows[n]);
    if i < n {
      InsertedKeyIsVisible(rows[..n], i);
    }
  }

  /** The view is exactly the kept rows: the fold refines the engine's rule. */
  lemma KeptRowIsVisible(rows: seq<TrackingEvent>, i: nat)
    requires i < |rows|
    ensures rows[i].Key() in View(rows)
    ensures IsKept(rows, i) <==> (View(rows)[rows[i].Key()] == rows[i] && rows[i] !in rows[i + 1..])
  {
    InsertedKeyIsVisible(rows, i);
    var p := ViewShowsKeptRow(rows, rows[i].Key());
  }

  /** The keys of a view are the keys that were inserted. */
  lemma ViewKeys(rows: seq<TrackingEvent>)
    ensures View(rows).Keys == set r | r in rows :: r.Key()
  {
    forall k | k in View(rows) ensures k in (set r | r in rows :: r.Key()) {
      var i := ViewShowsKeptRow(rows, k);
      assert rows[i] in rows;
    }
    forall r | r in rows ensures r.Key() in View(rows) {
      var i :| 0 <= i < |rows| && rows[i] == r;
      InsertedKeyIsVisible(rows, i);
    }
  }

  /** Inserting a row before another one either changes nothing in the end or may be done after it. */
  lemma UpsertSwap(view: TableView, x: TrackingEvent, y: TrackingEvent)
    ensures || Upsert(Upsert(view, x), y) == Upsert(view, y)
            || Upsert(Upsert(view, x), y) == Upsert(Upsert(view, y), x)
  {
    if x.Key() == y.Key() {
    } else {
      assert view[x.Key() := x][y.Key() := y] == view[y.Key() := y][x.Key() := x];
    }
  }

  /** A stray copy of a row leaves no trace if that row is still to be inserted. */
  lemma {:induction false} StrayRowAbsorbed(view: TableView, x: TrackingEvent, rest: seq<TrackingEvent>)
    requires x in rest
    ensures Merge(Upsert(view, x), rest) == Merge(view, rest)
    decreases rest
  {
    var y, tail := rest[0], rest[1..];
    if x == y {
      assert Upsert(Upsert(view, x), x) == Upsert(view, x);
    } else {
      assert x in tail;
      UpsertSwap(view, x, y);
      if Upsert(Upsert(view, x), y) != Upsert(view, y) {
        StrayRowAbsorbed(Upsert(view, y), x, tail);
      }
    }
  }

  /** So do any number of stray copies, in any order and multiplicity. */
  lemma {:induction false} StrayRowsAbsorbed(view: TableView, stray: seq<TrackingEvent>, rest: seq<TrackingEvent>)
    requires forall x | x in stray :: x in rest
    ensures Merge(Merge(view, stray), rest) == Merge(view, rest)
    decreases |stray|
  {
    if stray != [] {
      var n := |stray| - 1;
      assert stray == stray[..n] + [stray[n]];
      MergeAppend(view, stray[..n], [stray[n]]);
      assert Merge(Merge(view, stray[..n]), [stray[n]]) == Merge(Upsert(Merge(view, stray[..n]), stray[n]), []);
      StrayRowAbsorbed(Merge(view, stray[..n]), stray[n], rest);
      StrayRowsAbsorbed(view, stray[..n], rest);
    }
  }

  function ForSession(rows: seq<TrackingEvent>, sessionId: string): (r: seq<TrackingEvent>)
    ensures forall e :: e in r <==> e in rows && e.sessionId == sessionId
  {
    if rows == [] then []
    else
      var n := |rows| - 1;
      ForSession(rows[..n], sessionId) + if rows[n].sessionId == sessionId then [rows[n]] else []
  }

  ghost function SessionView(view: TableView, sessionId: string): TableView {
    map k | k in view && k.sessionId == sessionId :: view[k]
  }

  lemma SessionUpsert(view: TableView, row: TrackingEvent, sessionId: string)
    ensures SessionView(Upsert(view, row), sessionId)
            == if row.sessionId == sessionId then Upsert(SessionView(view, sessionId), row) else SessionView(view, sessionId)
  {
  }

  /** Sessions do not see each other's rows. */
  lemma {:induction false} SessionViewOf(rows: seq<TrackingEvent>, sessionId: string)
    ensures SessionView(View(rows), sessionId) == View(ForSession(rows, sessionId))
  {
    if rows != [] {
      var n := |rows| - 1;
      assert rows == rows[..n] + [rows[n]];
      SessionViewOf(rows[..n], sessionId);
      ViewAppend(rows[..n], rows[n]);
      SessionUpsert(View(rows[..n]), rows[n], sessionId);
      if rows[n].sessionId == sessionId {
        ViewAppend(ForSession(rows[..n], sessionId), rows[n]);
      } else {
        assert ForSession(rows, sessionId) == ForSession(rows[..n], sessionId);
      }
    }
  }
}
