/** From the SDK to the deduplicated table: what survives reordering, duplication and loss. */
module Delivery {
  import opened EventTable
  import opened SessionPayload
  import opened SessionState
  import opened SessionPayloadHandler
  import opened Heartbeat
  import Sdk
  import SdkPayloads
  import SdkTab
  import EB = EventBuffer
  import Batches = EventBatches
  import Sender

  /** One reception of a payload, of whose events the first `count` have been added to the buffer. */
  datatype Receipt = Receipt(payload: Payload, reception: Reception, count: nat)

  ghost predicate Concerns(d: Receipt, ws: string, sessionId: string) {
    d.payload.workspaceId == ws && d.payload.sessionId == sessionId
  }

  /** The row is the event of an action that a reception of the session added. */
  ghost predicate TagFits(row: TrackingEvent, tag: Batches.Origin, receptions: seq<Receipt>, ws: string, sessionId: string) {
    && tag.batch < |receptions| && Concerns(receptions[tag.batch], ws, sessionId)
    && tag.index < receptions[tag.batch].count <= |receptions[tag.batch].payload.actions|
    && row == EventOf(receptions[tag.batch].payload, receptions[tag.batch].reception, tag.index)
  }

  ghost predicate HasTag(tags: seq<Batches.Origin>, b: nat, i: nat) {
    Batches.Origin(b, i) in tags
  }

  /** The rows of a session are the events that its receptions added, with the reception and the action of each. */
  ghost predicate RowsOf(rows: seq<TrackingEvent>, tags: seq<Batches.Origin>, receptions: seq<Receipt>, ws: string, sessionId: string) {
    && |tags| == |rows| && Batches.InOrder(tags)
    && (forall m | 0 <= m < |rows| :: TagFits(rows[m], tags[m], receptions, ws, sessionId))
    && (forall b, i | 0 <= b < |receptions| && Concerns(receptions[b], ws, sessionId) && 0 <= i < receptions[b].count :: HasTag(tags, b, i))
    && forall d | d in receptions :: d.count <= |d.payload.actions|
  }

  /** Every payload of the session is a prefix of one action log. */
  ghost predicate PrefixesOf(receptions: seq<Receipt>, ws: string, sessionId: string, log: seq<ActionId>) {
    forall d | d in receptions && Concerns(d, ws, sessionId) :: Ids(d.payload.actions) <= log
  }

  /** The keys of the actions of a log. */
  ghost function TokenKeys(sessionId: string, ids: seq<ActionId>): set<EventKey> {
    set i | 0 <= i < |ids| :: EventKey(sessionId, Token(sessionId, ids[i]))
  }

  /** The number of actions that the fullest reception of the session added. */
  ghost function Longest(receptions: seq<Receipt>, ws: string, sessionId: string): nat {
    if receptions == [] then 0
    else
      var n := |receptions| - 1;
      var rest := Longest(receptions[..n], ws, sessionId);
      if Concerns(receptions[n], ws, sessionId) && receptions[n].count > rest then receptions[n].count else rest
  }

  lemma {:induction false} LongestIsUpperBound(receptions: seq<Receipt>, ws: string, sessionId: string)
    ensures forall d | d in receptions && Concerns(d, ws, sessionId) :: d.count <= Longest(receptions, ws, sessionId)
  {
    if receptions != [] {
      var n := |receptions| - 1;
      assert receptions == receptions[..n] + [receptions[n]];
      LongestIsUpperBound(receptions[..n], ws, sessionId);
    }
  }

  lemma {:induction false} LongestIsReached(receptions: seq<Receipt>, ws: string, sessionId: string) returns (b: nat)
    requires Longest(receptions, ws, sessionId) > 0
    ensures b < |receptions| && Concerns(receptions[b], ws, sessionId) && receptions[b].count == Longest(receptions, ws, sessionId)
  {
    var n := |receptions| - 1;
    if Longest(receptions, ws, sessionId) == Longest(receptions[..n], ws, sessionId) {
      b := LongestIsReached(receptions[..n], ws, sessionId);
    } else {
      b := n;
    }
  }

  function TokenOf(p: Payload, i: nat): string
    requires i < |p.actions|
  {
    Token(p.sessionId, p.actions[i].Id())
  }

  // ---------------------------------------------------------------- which keys are stored

  lemma TokenInLog(p: Payload, i: nat, log: seq<ActionId>)
    requires i < |p.actions| && Ids(p.actions) <= log
    ensures i < |log| && TokenOf(p, i) == Token(p.sessionId, log[i])
  {
    assert Ids(p.actions)[i] == log[i];
  }

  lemma StoredWithinLongest(rows: seq<TrackingEvent>, tags: seq<Batches.Origin>, receptions: seq<Receipt>,
                            ws: string, sessionId: string, log: seq<ActionId>, m: nat)
    requires RowsOf(rows, tags, receptions, ws, sessionId) && PrefixesOf(receptions, ws, sessionId, log) && m < |rows|
    ensures tags[m].index < Longest(receptions, ws, sessionId) && tags[m].index < |log|
    ensures rows[m].Key() == EventKey(sessionId, Token(sessionId, log[tags[m].index]))
  {
    assert TagFits(rows[m], tags[m], receptions, ws, sessionId);
    var d := receptions[tags[m].batch];
    assert d in receptions;
    LongestIsUpperBound(receptions, ws, sessionId);
    EventIdentity(d.payload, d.reception, tags[m].index);
    TokenInLog(d.payload, tags[m].index, log);
  }

  lemma LongestIsStored(rows: seq<TrackingEvent>, tags: seq<Batches.Origin>, receptions: seq<Receipt>,
                        ws: string, sessionId: string, log: seq<ActionId>, i: nat) returns (m: nat)
    requires RowsOf(rows, tags, receptions, ws, sessionId) && PrefixesOf(receptions, ws, sessionId, log)
    requires i < Longest(receptions, ws, sessionId)
    ensures m < |rows| && tags[m].index == i
  {
    var b := LongestIsReached(receptions, ws, sessionId);
    assert HasTag(tags, b, i);
    m :| 0 <= m < |tags| && tags[m] == Batches.Origin(b, i);
  }

  lemma LongestFits(receptions: seq<Receipt>, ws: string, sessionId: string, log: seq<ActionId>)
    requires PrefixesOf(receptions, ws, sessionId, log) && forall d | d in receptions :: d.count <= |d.payload.actions|
    ensures Longest(receptions, ws, sessionId) <= |log|
  {
    if Longest(receptions, ws, sessionId) > 0 {
      var b := LongestIsReached(receptions, ws, sessionId);
      assert receptions[b] in receptions;
    }
  }

  lemma TokenIsStored(rows: seq<TrackingEvent>, tags: seq<Batches.Origin>, receptions: seq<Receipt>,
                      ws: string, sessionId: string, log: seq<ActionId>, i: nat)
    requires RowsOf(rows, tags, receptions, ws, sessionId) && PrefixesOf(receptions, ws, sessionId, log)
    requires i < Longest(receptions, ws, sessionId)
    ensures i < |log| && EventKey(sessionId, Token(sessionId, log[i])) in View(rows)
  {
    var m := LongestIsStored(rows, tags, receptions, ws, sessionId, log, i);
    StoredWithinLongest(rows, tags, receptions, ws, sessionId, log, m);
    InsertedKeyIsVisible(rows, m);
  }

  /** Delivery order independence: if every payload received is a prefix of one action log, then whatever
      was reordered, duplicated, cut short or lost, the stored keys are exactly the tokens of the longest
      part of the log that was received. */
  lemma StoredKeys(rows: seq<TrackingEvent>, tags: seq<Batches.Origin>, receptions: seq<Receipt>,
                   ws: string, sessionId: string, log: seq<ActionId>)
    requires RowsOf(rows, tags, receptions, ws, sessionId) && PrefixesOf(receptions, ws, sessionId, log)
    ensures Longest(receptions, ws, sessionId) <= |log|
    ensures View(rows).Keys == TokenKeys(sessionId, log[..Longest(receptions, ws, sessionId)])
  {
    LongestFits(receptions, ws, sessionId, log);
    var part := log[..Longest(receptions, ws, sessionId)];
    forall k | k in TokenKeys(sessionId, part) ensures k in View(rows).Keys {
      var i :| 0 <= i < |part| && k == EventKey(sessionId, Token(sessionId, part[i]));
      TokenIsStored(rows, tags, receptions, ws, sessionId, log, i);
    }
    forall k | k in View(rows).Keys ensures k in TokenKeys(sessionId, part) {
      var m := ViewShowsKeptRow(rows, k);
      StoredWithinLongest(rows, tags, receptions, ws, sessionId, log, m);
      assert part[tags[m].index] == log[tags[m].index];
    }
  }

  // ---------------------------------------------------------------- which values are shown

  /** Of the receptions that added an action with this token, row m's was received last by the server's clock, and of
      several with that time it reached the buffer last. */
  ghost predicate Latest(rows: seq<TrackingEvent>, tags: seq<Batches.Origin>, receptions: seq<Receipt>,
                         ws: string, sessionId: string, m: nat)
    requires RowsOf(rows, tags, receptions, ws, sessionId) && m < |rows|
  {
    forall l | 0 <= l < |rows| && rows[l].dedupToken == rows[m].dedupToken ::
      var other, own := receptions[tags[l].batch].reception.receivedAt, receptions[tags[m].batch].reception.receivedAt;
      other < own || (other == own && l <= m)
  }

  lemma RowIdentity(row: TrackingEvent, tag: Batches.Origin, receptions: seq<Receipt>, ws: string, sessionId: string)
    requires TagFits(row, tag, receptions, ws, sessionId)
    ensures row.sessionId == sessionId && row.dedupToken == TokenOf(receptions[tag.batch].payload, tag.index)
    ensures row.Key() == EventKey(sessionId, row.dedupToken)
    ensures row.version == receptions[tag.batch].reception.receivedAt
  {
    EventIdentity(receptions[tag.batch].payload, receptions[tag.batch].reception, tag.index);
  }

  /** For every action, the table shows the event of the reception with the greatest time and then the last place in
      the buffer, among those that added the action. */
  lemma LatestIsShown(rows: seq<TrackingEvent>, tags: seq<Batches.Origin>, receptions: seq<Receipt>,
                      ws: string, sessionId: string, m: nat)
    requires RowsOf(rows, tags, receptions, ws, sessionId) && m < |rows|
    ensures Latest(rows, tags, receptions, ws, sessionId, m) <==> IsKept(rows, m)
    ensures rows[m].Key() in View(rows)
    ensures Latest(rows, tags, receptions, ws, sessionId, m) ==>
              var d := receptions[tags[m].batch];
              View(rows)[EventKey(sessionId, TokenOf(d.payload, tags[m].index))] == EventOf(d.payload, d.reception, tags[m].index)
  {
    forall l | 0 <= l < |rows|
      ensures rows[l].Key() == EventKey(sessionId, rows[l].dedupToken)
      ensures rows[l].version == receptions[tags[l].batch].reception.receivedAt
    {
      RowIdentity(rows[l], tags[l], receptions, ws, sessionId);
    }
    RowIdentity(rows[m], tags[m], receptions, ws, sessionId);
    KeptRowIsVisible(rows, m);
  }

  /** So for a pageview the table shows what the latest reception says of it, after the path of the pageview before it. */
  lemma LatestPageviewIsShown(rows: seq<TrackingEvent>, tags: seq<Batches.Origin>, receptions: seq<Receipt>,
                              ws: string, sessionId: string, m: nat, j: nat)
    requires RowsOf(rows, tags, receptions, ws, sessionId) && m < |rows| && Latest(rows, tags, receptions, ws, sessionId, m)
    requires TagFits(rows[m], tags[m], receptions, ws, sessionId)
    requires var actions, i := receptions[tags[m].batch].payload.actions, tags[m].index;
             && actions[i].Pageview? && j <= i && (j > 0 ==> actions[j - 1].Pageview?)
             && forall l | j <= l < i :: !actions[l].Pageview?
    ensures rows[m].Key() in View(rows)
    ensures var actions, i, e := receptions[tags[m].batch].payload.actions, tags[m].index, View(rows)[rows[m].Key()];
            && e.dedupToken == PageviewToken(sessionId, actions[i].pageNumber)
            && e.path == actions[i].path && e.pageNumber == actions[i].pageNumber
            && e.duration == actions[i].duration && e.maxScroll == actions[i].scroll
            && e.previousPath == if j > 0 then actions[j - 1].path else ""
  {
    var d := receptions[tags[m].batch];
    LatestIsShown(rows, tags, receptions, ws, sessionId, m);
    RowIdentity(rows[m], tags[m], receptions, ws, sessionId);
    PageviewRow(d.payload, d.reception, tags[m].index, j);
  }

  /** No later action of the payload has the same token. */
  ghost predicate LastOfToken(p: Payload, j: nat)
    requires j < |p.actions|
  {
    forall l | j < l < |p.actions| :: TokenOf(p, l) != TokenOf(p, j)
  }

  lemma {:induction false} LastWithToken(p: Payload, i: nat) returns (j: nat)
    requires i < |p.actions|
    ensures i <= j < |p.actions| && TokenOf(p, j) == TokenOf(p, i) && LastOfToken(p, j)
    decreases |p.actions| - i
  {
    if LastOfToken(p, i) {
      j := i;
    } else {
      var l :| i < l < |p.actions| && TokenOf(p, l) == TokenOf(p, i);
      j := LastWithToken(p, l);
    }
  }

  /** What a payload alone would show. */
  lemma PayloadShows(p: Payload, r: Reception, j: nat)
    requires j < |p.actions| && LastOfToken(p, j)
    ensures var k := EventKey(p.sessionId, TokenOf(p, j)); k in View(Events(p, r)) && View(Events(p, r))[k] == EventOf(p, r, j)
  {
    var rows := Events(p, r);
    forall l | 0 <= l < |rows| ensures rows[l].Key() == EventKey(p.sessionId, TokenOf(p, l)) && rows[l].version == r.receivedAt {
      EventIdentity(p, r, l);
    }
    KeptRowIsVisible(rows, j);
  }

  lemma PayloadKeys(p: Payload, r: Reception, log: seq<ActionId>)
    requires Ids(p.actions) <= log
    ensures View(Events(p, r)).Keys == TokenKeys(p.sessionId, log[..|p.actions|])
  {
    var rows, part := Events(p, r), log[..|p.actions|];
    ViewKeys(rows);
    forall i | 0 <= i < |rows| ensures rows[i].Key() == EventKey(p.sessionId, Token(p.sessionId, part[i])) {
      EventIdentity(p, r, i);
      TokenInLog(p, i, log);
    }
    forall k | k in TokenKeys(p.sessionId, part) ensures k in View(rows).Keys {
      var i :| 0 <= i < |part| && k == EventKey(p.sessionId, Token(p.sessionId, part[i]));
      assert rows[i] in rows;
    }
  }

  /** For every action, the latest reception that added it carries this payload's event of it. */
  ghost predicate LatestCarry(rows: seq<TrackingEvent>, tags: seq<Batches.Origin>, receptions: seq<Receipt>,
                              ws: string, sessionId: string, p: Payload, r: Reception)
    requires RowsOf(rows, tags, receptions, ws, sessionId)
  {
    forall m, j | 0 <= m < |rows| && Latest(rows, tags, receptions, ws, sessionId, m)
                  && 0 <= j < |p.actions| && rows[m].dedupToken == TokenOf(p, j) && LastOfToken(p, j) ::
      rows[m] == EventOf(p, r, j)
  }

  lemma ShownIsCarried(rows: seq<TrackingEvent>, tags: seq<Batches.Origin>, receptions: seq<Receipt>,
                       ws: string, sessionId: string, p: Payload, r: Reception)
    requires RowsOf(rows, tags, receptions, ws, sessionId) && p.sessionId == sessionId
    requires View(rows) == View(Events(p, r))
    ensures LatestCarry(rows, tags, receptions, ws, sessionId, p, r)
  {
    forall m, j | 0 <= m < |rows| && Latest(rows, tags, receptions, ws, sessionId, m)
                  && 0 <= j < |p.actions| && rows[m].dedupToken == TokenOf(p, j) && LastOfToken(p, j)
      ensures rows[m] == EventOf(p, r, j)
    {
      LatestIsShown(rows, tags, receptions, ws, sessionId, m);
      RowIdentity(rows[m], tags[m], receptions, ws, sessionId);
      PayloadShows(p, r, j);
    }
  }

  lemma CarriedIsShown(rows: seq<TrackingEvent>, tags: seq<Batches.Origin>, receptions: seq<Receipt>,
                       ws: string, sessionId: string, log: seq<ActionId>, p: Payload, r: Reception, k: EventKey)
    requires RowsOf(rows, tags, receptions, ws, sessionId) && PrefixesOf(receptions, ws, sessionId, log)
    requires p.sessionId == sessionId && Ids(p.actions) <= log && |p.actions| == Longest(receptions, ws, sessionId)
    requires LatestCarry(rows, tags, receptions, ws, sessionId, p, r) && k in View(rows)
    ensures k in View(Events(p, r)) && View(rows)[k] == View(Events(p, r))[k]
  {
    var m := ViewShowsKeptRow(rows, k);
    LatestIsShown(rows, tags, receptions, ws, sessionId, m);
    RowIdentity(rows[m], tags[m], receptions, ws, sessionId);
    StoredWithinLongest(rows, tags, receptions, ws, sessionId, log, m);
    TokenInLog(p, tags[m].index, log);
    var j := LastWithToken(p, tags[m].index);
    PayloadShows(p, r, j);
  }

  /** The exact condition for the stored rows to be those of a longest payload: for every action, the latest reception
      that added it carries that payload's event. */
  lemma ShowsPayloadIff(rows: seq<TrackingEvent>, tags: seq<Batches.Origin>, receptions: seq<Receipt>,
                        ws: string, sessionId: string, log: seq<ActionId>, p: Payload, r: Reception)
    requires RowsOf(rows, tags, receptions, ws, sessionId) && PrefixesOf(receptions, ws, sessionId, log)
    requires p.sessionId == sessionId && Ids(p.actions) <= log && |p.actions| == Longest(receptions, ws, sessionId)
    ensures View(rows) == View(Events(p, r)) <==> LatestCarry(rows, tags, receptions, ws, sessionId, p, r)
  {
    if View(rows) == View(Events(p, r)) {
      ShownIsCarried(rows, tags, receptions, ws, sessionId, p, r);
    }
    if LatestCarry(rows, tags, receptions, ws, sessionId, p, r) {
      StoredKeys(rows, tags, receptions, ws, sessionId, log);
      PayloadKeys(p, r, log);
      forall k | k in View(rows) ensures View(rows)[k] == View(Events(p, r))[k] {
        CarriedIsShown(rows, tags, receptions, ws, sessionId, log, p, r, k);
      }
    }
  }

  /** No other reception of the session was received later than this one, or at the same time with a row behind one of
      this one's. */
  ghost predicate ReceivedLast(tags: seq<Batches.Origin>, receptions: seq<Receipt>, b: nat) {
    && b < |receptions|
    && forall m, l | 0 <= m < |tags| && 0 <= l < |tags| && tags[m].batch == b && tags[l].batch != b ::
         && tags[l].batch < |receptions|
         && var other, own := receptions[tags[l].batch].reception.receivedAt, receptions[b].reception.receivedAt;
            other < own || (other == own && l < m)
  }

  lemma LatestIsOfLast(rows: seq<TrackingEvent>, tags: seq<Batches.Origin>, receptions: seq<Receipt>,
                       ws: string, sessionId: string, b: nat, m: nat, l: nat)
    requires RowsOf(rows, tags, receptions, ws, sessionId) && ReceivedLast(tags, receptions, b)
    requires m < |rows| && Latest(rows, tags, receptions, ws, sessionId, m)
    requires l < |rows| && tags[l].batch == b && rows[l].dedupToken == rows[m].dedupToken
    ensures tags[m].batch == b && l <= m && tags[l].index <= tags[m].index
  {
  }

  lemma LastCarries(rows: seq<TrackingEvent>, tags: seq<Batches.Origin>, receptions: seq<Receipt>,
                    ws: string, sessionId: string, b: nat, m: nat, j: nat)
    requires RowsOf(rows, tags, receptions, ws, sessionId) && ReceivedLast(tags, receptions, b)
    requires Concerns(receptions[b], ws, sessionId) && receptions[b].count == |receptions[b].payload.actions|
    requires m < |rows| && Latest(rows, tags, receptions, ws, sessionId, m)
    requires j < receptions[b].count && rows[m].dedupToken == TokenOf(receptions[b].payload, j) && LastOfToken(receptions[b].payload, j)
    ensures rows[m] == EventOf(receptions[b].payload, receptions[b].reception, j)
  {
    assert HasTag(tags, b, j);
    var l :| 0 <= l < |tags| && tags[l] == Batches.Origin(b, j);
    RowIdentity(rows[l], tags[l], receptions, ws, sessionId);
    RowIdentity(rows[m], tags[m], receptions, ws, sessionId);
    LatestIsOfLast(rows, tags, receptions, ws, sessionId, b, m, l);
    assert TagFits(rows[m], tags[m], receptions, ws, sessionId);
  }

  /** In particular: if the last reception is complete and a longest one, the stored rows of the session are its events
      and nothing else. */
  lemma LastReceivedWins(rows: seq<TrackingEvent>, tags: seq<Batches.Origin>, receptions: seq<Receipt>,
                         ws: string, sessionId: string, log: seq<ActionId>, b: nat)
    requires RowsOf(rows, tags, receptions, ws, sessionId) && PrefixesOf(receptions, ws, sessionId, log)
    requires ReceivedLast(tags, receptions, b) && Concerns(receptions[b], ws, sessionId)
    requires receptions[b].count == |receptions[b].payload.actions| == Longest(receptions, ws, sessionId)
    ensures View(rows) == View(Events(receptions[b].payload, receptions[b].reception))
  {
    var p, r := receptions[b].payload, receptions[b].reception;
    assert receptions[b] in receptions;
    forall m, j | 0 <= m < |rows| && Latest(rows, tags, receptions, ws, sessionId, m)
                  && 0 <= j < |p.actions| && rows[m].dedupToken == TokenOf(p, j) && LastOfToken(p, j)
      ensures rows[m] == EventOf(p, r, j)
    {
      LastCarries(rows, tags, receptions, ws, sessionId, b, m, j);
    }
    ShowsPayloadIff(rows, tags, receptions, ws, sessionId, log, p, r);
  }

  /** Otherwise values can go back: of two payloads with the same actions the stale one is received later, and its
      shorter duration is shown. */
  lemma StaleValuesOverwrite(ws: string, sessionId: string)
    returns (rows: seq<TrackingEvent>, tags: seq<Batches.Origin>, newer: Receipt, stale: Receipt)
    ensures RowsOf(rows, tags, [newer, stale], ws, sessionId) && |rows| == 2
    ensures |newer.payload.actions| == 1 && Ids(stale.payload.actions) == Ids(newer.payload.actions)
    ensures newer.payload.actions[0].Pageview? && stale.payload.actions[0].Pageview?
    ensures newer.payload.actions[0].duration > stale.payload.actions[0].duration
    ensures Latest(rows, tags, [newer, stale], ws, sessionId, 1)
    ensures rows[0].Key() in View(rows) && View(rows)[rows[0].Key()].duration == stale.payload.actions[0].duration
  {
    var first := Payload(ws, sessionId, [Pageview("/", 1, 5, 0, 0, 5)], map[], 0, 5);
    var second := Payload(ws, sessionId, [Pageview("/", 1, 9, 0, 0, 9)], map[], 0, 9);
    newer := Receipt(second, Reception(None, 10, map[], None), 1);
    stale := Receipt(first, Reception(None, 20, map[], None), 1);
    rows := [EventOf(second, newer.reception, 0), EventOf(first, stale.reception, 0)];
    tags := [Batches.Origin(0, 0), Batches.Origin(1, 0)];
    assert HasTag(tags, 0, 0) by { assert tags[0] in tags; }
    assert HasTag(tags, 1, 0) by { assert tags[1] in tags; }
    LatestIsShown(rows, tags, [newer, stale], ws, sessionId, 1);
  }

  // ---------------------------------------------------------------- from the run of the server

  /** A payload as it arrives with a request. */
  datatype Arrival = Arrival(payload: Payload, reception: Reception)

  /** Each call of `addBatch` was given the events of one arrival. */
  ghost predicate AreArrivals(s: Batches.System, arrivals: seq<Arrival>) {
    |arrivals| == |s.batches|
    && forall b | 0 <= b < |arrivals| :: s.batches[b].source == Events(arrivals[b].payload, arrivals[b].reception)
  }

  function Receipts(s: Batches.System, arrivals: seq<Arrival>): (r: seq<Receipt>)
    requires |arrivals| == |s.batches|
    ensures |r| == |arrivals|
    ensures forall b | 0 <= b < |r| :: r[b] == Receipt(arrivals[b].payload, arrivals[b].reception, s.batches[b].next)
  {
    seq(|arrivals|, b requires 0 <= b < |arrivals| => Receipt(arrivals[b].payload, arrivals[b].reception, s.batches[b].next))
  }

  ghost function SessionRows(added: seq<TrackingEvent>, ws: string, sessionId: string): seq<TrackingEvent> {
    ForSession(EB.ForWorkspace(added, ws), sessionId)
  }

  /** The origins of the rows of a session. */
  ghost function Tags(added: seq<TrackingEvent>, origins: seq<Batches.Origin>, ws: string, sessionId: string): seq<Batches.Origin>
    requires |origins| == |added|
  {
    if added == [] then []
    else
      var n := |added| - 1;
      Tags(added[..n], origins[..n], ws, sessionId)
      + if added[n].workspaceId == ws && added[n].sessionId == sessionId then [origins[n]] else []
  }

  lemma SessionRowsStep(added: seq<TrackingEvent>, ws: string, sessionId: string)
    requires added != []
    ensures var n := |added| - 1;
            SessionRows(added, ws, sessionId) == SessionRows(added[..n], ws, sessionId)
            + if added[n].workspaceId == ws && added[n].sessionId == sessionId then [added[n]] else []
  {
    var n := |added| - 1;
    var before := EB.ForWorkspace(added[..n], ws);
    if added[n].workspaceId == ws {
      assert EB.ForWorkspace(added, ws) == before + [added[n]];
      assert (before + [added[n]])[..|before|] == before;
    } else {
      assert EB.ForWorkspace(added, ws) == before;
    }
  }

  /** Some added event and its origin are this row and tag. */
  ghost predicate Paired(added: seq<TrackingEvent>, origins: seq<Batches.Origin>, row: TrackingEvent, tag: Batches.Origin) {
    exists k :: 0 <= k < |added| && k < |origins| && added[k] == row && origins[k] == tag
  }

  lemma {:induction false} TagsArePaired(added: seq<TrackingEvent>, origins: seq<Batches.Origin>, ws: string, sessionId: string)
    requires |origins| == |added|
    ensures |Tags(added, origins, ws, sessionId)| == |SessionRows(added, ws, sessionId)|
    ensures forall m | 0 <= m < |Tags(added, origins, ws, sessionId)| ::
              Paired(added, origins, SessionRows(added, ws, sessionId)[m], Tags(added, origins, ws, sessionId)[m])
  {
    if added != [] {
      var n := |added| - 1;
      TagsArePaired(added[..n], origins[..n], ws, sessionId);
      SessionRowsStep(added, ws, sessionId);
      forall m | 0 <= m < |Tags(added, origins, ws, sessionId)|
        ensures Paired(added, origins, SessionRows(added, ws, sessionId)[m], Tags(added, origins, ws, sessionId)[m])
      {
        if m < |Tags(added[..n], origins[..n], ws, sessionId)| {
          assert Paired(added[..n], origins[..n], SessionRows(added[..n], ws, sessionId)[m],
                        Tags(added[..n], origins[..n], ws, sessionId)[m]);
        } else {
          assert added[n] == SessionRows(added, ws, sessionId)[m] && origins[n] == Tags(added, origins, ws, sessionId)[m];
        }
      }
    }
  }

  lemma {:induction false} TagsKeepOrder(added: seq<TrackingEvent>, origins: seq<Batches.Origin>, ws: string, sessionId: string)
    requires |origins| == |added| && Batches.InOrder(origins)
    ensures Batches.InOrder(Tags(added, origins, ws, sessionId))
    ensures forall o | o in Tags(added, origins, ws, sessionId) :: o in origins
  {
    if added != [] {
      var n := |added| - 1;
      assert origins == origins[..n] + [origins[n]];
      var before := Tags(added[..n], origins[..n], ws, sessionId);
      TagsKeepOrder(added[..n], origins[..n], ws, sessionId);
      forall k | 0 <= k < |before| && before[k].batch == origins[n].batch ensures before[k].index < origins[n].index {
        assert before[k] in origins[..n];
        var l :| 0 <= l < n && origins[l] == before[k];
      }
    }
  }

  lemma {:induction false} TagOf(added: seq<TrackingEvent>, origins: seq<Batches.Origin>, ws: string, sessionId: string, k: nat)
    requires |origins| == |added| && k < |added| && added[k].workspaceId == ws && added[k].sessionId == sessionId
    ensures origins[k] in Tags(added, origins, ws, sessionId)
  {
    var n := |added| - 1;
    if k < n {
      TagOf(added[..n], origins[..n], ws, sessionId, k);
    }
  }

  lemma QueueOfArrival(s: Batches.System, arrivals: seq<Arrival>, b: nat)
    requires Batches.Inv(s) && AreArrivals(s, arrivals) && b < |arrivals|
    ensures s.batches[b].queue == Events(arrivals[b].payload, arrivals[b].reception)
    ensures s.batches[b].next <= |s.batches[b].queue|
  {
    assert Batches.WellGrouped(s.batches[b]);
    forall e | e in s.batches[b].source ensures e.workspaceId == arrivals[b].payload.workspaceId {
      var i :| 0 <= i < |s.batches[b].source| && s.batches[b].source[i] == e;
      EventIdentity(arrivals[b].payload, arrivals[b].reception, i);
    }
    Batches.OneGroup(s.batches[b], arrivals[b].payload.workspaceId);
  }

  lemma RowFits(s: Batches.System, arrivals: seq<Arrival>, ws: string, sessionId: string, k: nat)
    requires Batches.Inv(s) && AreArrivals(s, arrivals) && k < |s.buffer.added|
    requires s.buffer.added[k].workspaceId == ws && s.buffer.added[k].sessionId == sessionId
    ensures TagFits(s.buffer.added[k], s.origins[k], Receipts(s, arrivals), ws, sessionId)
  {
    assert Batches.OriginFits(s.batches, s.origins[k], s.buffer.added[k]);
    var o := s.origins[k];
    QueueOfArrival(s, arrivals, o.batch);
    EventIdentity(arrivals[o.batch].payload, arrivals[o.batch].reception, o.index);
  }

  lemma AddedIsTagged(s: Batches.System, arrivals: seq<Arrival>, ws: string, sessionId: string, b: nat, i: nat)
    requires Batches.Inv(s) && AreArrivals(s, arrivals)
    requires b < |arrivals| && Concerns(Receipts(s, arrivals)[b], ws, sessionId) && i < s.batches[b].next
    ensures HasTag(Tags(s.buffer.added, s.origins, ws, sessionId), b, i)
  {
    assert Batches.HasOrigin(s.origins, b, i);
    var k :| 0 <= k < |s.origins| && s.origins[k] == Batches.Origin(b, i);
    assert Batches.OriginFits(s.batches, s.origins[k], s.buffer.added[k]);
    QueueOfArrival(s, arrivals, b);
    EventIdentity(arrivals[b].payload, arrivals[b].reception, i);
    TagOf(s.buffer.added, s.origins, ws, sessionId, k);
  }

  lemma SessionRowsMembers(added: seq<TrackingEvent>, ws: string, sessionId: string)
    ensures forall e | e in SessionRows(added, ws, sessionId) :: e.workspaceId == ws && e.sessionId == sessionId
  {
    EB.ForWorkspaceMembers(added, ws);
  }

  lemma RowsFit(s: Batches.System, arrivals: seq<Arrival>, ws: string, sessionId: string, m: nat)
    requires Batches.Inv(s) && AreArrivals(s, arrivals) && m < |SessionRows(s.buffer.added, ws, sessionId)|
    ensures |Tags(s.buffer.added, s.origins, ws, sessionId)| == |SessionRows(s.buffer.added, ws, sessionId)|
    ensures TagFits(SessionRows(s.buffer.added, ws, sessionId)[m], Tags(s.buffer.added, s.origins, ws, sessionId)[m],
                    Receipts(s, arrivals), ws, sessionId)
  {
    var rows, tags := SessionRows(s.buffer.added, ws, sessionId), Tags(s.buffer.added, s.origins, ws, sessionId);
    TagsArePaired(s.buffer.added, s.origins, ws, sessionId);
    SessionRowsMembers(s.buffer.added, ws, sessionId);
    assert Paired(s.buffer.added, s.origins, rows[m], tags[m]);
    assert rows[m] in rows;
    var k :| 0 <= k < |s.buffer.added| && s.buffer.added[k] == rows[m] && s.origins[k] == tags[m];
    RowFits(s, arrivals, ws, sessionId, k);
  }

  lemma StateRows(s: Batches.System, arrivals: seq<Arrival>, ws: string, sessionId: string)
    requires Batches.Inv(s) && AreArrivals(s, arrivals)
    ensures RowsOf(SessionRows(s.buffer.added, ws, sessionId), Tags(s.buffer.added, s.origins, ws, sessionId),
                   Receipts(s, arrivals), ws, sessionId)
  {
    var rows, tags := SessionRows(s.buffer.added, ws, sessionId), Tags(s.buffer.added, s.origins, ws, sessionId);
    TagsArePaired(s.buffer.added, s.origins, ws, sessionId);
    TagsKeepOrder(s.buffer.added, s.origins, ws, sessionId);
    forall m | 0 <= m < |rows| ensures TagFits(rows[m], tags[m], Receipts(s, arrivals), ws, sessionId) {
      RowsFit(s, arrivals, ws, sessionId, m);
    }
    forall b, i | 0 <= b < |arrivals| && Concerns(Receipts(s, arrivals)[b], ws, sessionId) && 0 <= i < Receipts(s, arrivals)[b].count
      ensures HasTag(tags, b, i)
    {
      AddedIsTagged(s, arrivals, ws, sessionId, b, i);
    }
    forall d | d in Receipts(s, arrivals) ensures d.count <= |d.payload.actions| {
      var b :| 0 <= b < |arrivals| && Receipts(s, arrivals)[b] == d;
      QueueOfArrival(s, arrivals, b);
    }
  }

  /** In every run of the server, the rows of a session are those of the prefixes that its calls of `addBatch` added. */
  lemma RunRows(states: seq<Batches.System>, steps: seq<Batches.Step>, n: nat, arrivals: seq<Arrival>, ws: string, sessionId: string)
    requires Batches.IsRun(states, steps) && n < |states| && AreArrivals(states[n], arrivals)
    ensures |states[n].origins| == |states[n].buffer.added|
    ensures var s := states[n];
            RowsOf(SessionRows(s.buffer.added, ws, sessionId), Tags(s.buffer.added, s.origins, ws, sessionId),
                   Receipts(s, arrivals), ws, sessionId)
  {
    Batches.RunKeepsInv(states, steps, n);
    StateRows(states[n], arrivals, ws, sessionId);
  }

  // ---------------------------------------------------------------- the whole path

  /** The longest of the payloads of a session that were built: all are prefixes of it. */
  lemma {:induction false} LongestPayload(payloads: seq<Payload>, sessionId: string) returns (log: seq<ActionId>)
    requires SdkPayloads.Cumulative(payloads)
    ensures forall p | p in payloads && p.sessionId == sessionId :: Ids(p.actions) <= log
  {
    log := [];
    if payloads != [] {
      var n := |payloads| - 1;
      log := LongestPayload(payloads[..n], sessionId);
      if payloads[n].sessionId == sessionId {
        log := Ids(payloads[n].actions);
        forall p | p in payloads && p.sessionId == sessionId ensures Ids(p.actions) <= log {
          var i :| 0 <= i < |payloads| && payloads[i] == p;
          assert Ids(payloads[i].actions) <= Ids(payloads[n].actions);
        }
      } else {
        assert forall p | p in payloads && p.sessionId == sessionId :: p in payloads[..n];
      }
    }
  }

  /** What the table shows for a session of a workspace. */
  ghost function StoredSession(s: EB.BufferState, ws: string, sessionId: string): TableView {
    SessionView(View(EB.Rows(s.table, ws)), sessionId)
  }

  /** What arrives for the session was built in this tab. */
  ghost predicate BuiltBy(arrivals: seq<Arrival>, ws: string, sessionId: string, payloads: seq<Payload>) {
    forall a | a in arrivals && a.payload.workspaceId == ws && a.payload.sessionId == sessionId :: a.payload in payloads
  }

  lemma ArrivalsArePrefixes(s: Batches.System, arrivals: seq<Arrival>, ws: string, sessionId: string, payloads: seq<Payload>)
    returns (log: seq<ActionId>)
    requires |arrivals| == |s.batches| && SdkPayloads.Cumulative(payloads) && BuiltBy(arrivals, ws, sessionId, payloads)
    ensures PrefixesOf(Receipts(s, arrivals), ws, sessionId, log)
  {
    log := LongestPayload(payloads, sessionId);
    forall d | d in Receipts(s, arrivals) && Concerns(d, ws, sessionId) ensures Ids(d.payload.actions) <= log {
      var b :| 0 <= b < |arrivals| && Receipts(s, arrivals)[b] == d;
      assert arrivals[b] in arrivals;
    }
  }

  lemma DrainedSession(states: seq<Batches.System>, steps: seq<Batches.Step>, ws: string, sessionId: string)
    requires Batches.IsRun(states, steps) && EB.Drained(states[|steps|].buffer)
    ensures var s := states[|steps|].buffer; StoredSession(s, ws, sessionId) == View(SessionRows(s.added, ws, sessionId))
  {
    Batches.RunKeepsInv(states, steps, |steps|);
    EB.DrainedView(states[|steps|].buffer, ws);
    SessionViewOf(EB.ForWorkspace(states[|steps|].buffer.added, ws), sessionId);
  }

  /** End to end: take any run of the SDK over the page loads of a tab, in which no restore and no page load loses what
      was sent, let its payloads arrive any number of times in any order, let the calls of `addBatch` interleave and fail
      and the buffer flush and retry in any way, and drain it. Then the table shows, for the session, exactly the keys
      of the longest part of the action log that was added. */
  lemma EndToEndKeys(cfg: HeartbeatConfig, clients: seq<Sdk.Client>, events: seq<SdkTab.TabOccurrence>,
                     states: seq<Batches.System>, steps: seq<Batches.Step>,
                     arrivals: seq<Arrival>, ws: string, sessionId: string) returns (log: seq<ActionId>)
    requires SdkTab.IsTabRun(cfg, clients, events) && SdkTab.TabLosesNothing(cfg, clients, events, |events|)
    requires Batches.IsRun(states, steps) && EB.Drained(states[|steps|].buffer)
    requires AreArrivals(states[|steps|], arrivals) && BuiltBy(arrivals, ws, sessionId, clients[|events|].payloads)
    ensures PrefixesOf(Receipts(states[|steps|], arrivals), ws, sessionId, log)
    ensures var longest := Longest(Receipts(states[|steps|], arrivals), ws, sessionId);
            && longest <= |log|
            && StoredSession(states[|steps|].buffer, ws, sessionId).Keys == TokenKeys(sessionId, log[..longest])
  {
    SdkTab.TabPayloadsAreCumulative(cfg, clients, events, |events|);
    var s := states[|steps|];
    log := ArrivalsArePrefixes(s, arrivals, ws, sessionId, clients[|events|].payloads);
    RunRows(states, steps, |steps|, arrivals, ws, sessionId);
    DrainedSession(states, steps, ws, sessionId);
    StoredKeys(SessionRows(s.buffer.added, ws, sessionId), Tags(s.buffer.added, s.origins, ws, sessionId),
               Receipts(s, arrivals), ws, sessionId, log);
  }

  /** End to end, row values: the table shows exactly the events of a longest arrival if and only if, for every action,
      the latest reception that added it carries that arrival's event. */
  lemma EndToEndRowsIff(cfg: HeartbeatConfig, clients: seq<Sdk.Client>, events: seq<SdkTab.TabOccurrence>,
                        states: seq<Batches.System>, steps: seq<Batches.Step>,
                        arrivals: seq<Arrival>, b: nat, ws: string, sessionId: string)
    requires SdkTab.IsTabRun(cfg, clients, events) && SdkTab.TabLosesNothing(cfg, clients, events, |events|)
    requires Batches.IsRun(states, steps) && EB.Drained(states[|steps|].buffer)
    requires AreArrivals(states[|steps|], arrivals) && BuiltBy(arrivals, ws, sessionId, clients[|events|].payloads)
    requires b < |arrivals| && Concerns(Receipts(states[|steps|], arrivals)[b], ws, sessionId)
    requires |arrivals[b].payload.actions| == Longest(Receipts(states[|steps|], arrivals), ws, sessionId)
    ensures var s := states[|steps|];
            && |s.origins| == |s.buffer.added|
            && var rows, tags := SessionRows(s.buffer.added, ws, sessionId), Tags(s.buffer.added, s.origins, ws, sessionId);
               && RowsOf(rows, tags, Receipts(s, arrivals), ws, sessionId)
               && (StoredSession(s.buffer, ws, sessionId) == View(Events(arrivals[b].payload, arrivals[b].reception))
                   <==> LatestCarry(rows, tags, Receipts(s, arrivals), ws, sessionId,
                                    arrivals[b].payload, arrivals[b].reception))
  {
    SdkTab.TabPayloadsAreCumulative(cfg, clients, events, |events|);
    var s := states[|steps|];
    var log := ArrivalsArePrefixes(s, arrivals, ws, sessionId, clients[|events|].payloads);
    RunRows(states, steps, |steps|, arrivals, ws, sessionId);
    DrainedSession(states, steps, ws, sessionId);
    assert Receipts(s, arrivals)[b] in Receipts(s, arrivals);
    ShowsPayloadIff(SessionRows(s.buffer.added, ws, sessionId), Tags(s.buffer.added, s.origins, ws, sessionId),
                    Receipts(s, arrivals), ws, sessionId, log, arrivals[b].payload, arrivals[b].reception);
  }

  /** Clock skew does not grow in the offline queue: however long a payload was queued, the request that the queue sends
      is stamped at sending, so the stored times obey the bound of a request that was never queued. */
  lemma QueuedPayloadSkew(states: seq<Sender.SenderState>, steps: seq<Sender.Occurrence>, n: nat,
                          offset: int, delay: nat, geo: map<string, string>, filters: Option<Enricher>, i: nat)
    requires Sender.IsRun(states, steps) && n < |steps| && Sender.SendsFromQueue(states, steps, n)
    requires states[n + 1].flush.value.rest != [] && i < |states[n + 1].flush.value.rest[0].payload.actions|
    ensures var request, item := Sender.RequestOf(states[n + 1]), states[n + 1].flush.value.rest[0];
            var r := Reception(Some(request.sentAt), steps[n].now - offset + delay, geo, filters);
            && item in states[n + 1].enqueued && item.queuedAt <= request.sentAt == steps[n].now
            && request.payload == item.payload
            && StoredWithin(EventOf(request.payload, r, i).enteredAt, EntryTime(request.payload.actions[i]) - offset, delay,
                            CalculateClockSkew(r.sentAt, r.receivedAt).needsCorrection)
  {
    Sender.StampedWhenSent(states, steps, n);
    var request := Sender.RequestOf(states[n + 1]);
    ClockSkewBound(request.payload, Reception(Some(request.sentAt), steps[n].now - offset + delay, geo, filters), i, offset, delay);
  }
}
