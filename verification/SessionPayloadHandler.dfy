/** Server ingest: a session payload becomes one event per action, with deterministic deduplication tokens
    and timestamps corrected for clock skew. */
module SessionPayloadHandler {
  import opened Decimal
  import opened EventTable
  import opened SessionPayload
  import opened SessionState

  const CACHE_TTL_MS := 60 * 1000
  const CLOCK_SKEW_THRESHOLD_MS := 5000

  // ---------------------------------------------------------------- deduplication tokens

  function PageviewToken(sessionId: string, pageNumber: int): string {
    sessionId + "_pv_" + IntText(pageNumber)
  }

  function GoalToken(sessionId: string, name: string, timestamp: int): string {
    sessionId + "_goal_" + name + "_" + IntText(timestamp)
  }

  function Token(sessionId: string, id: ActionId): string {
    match id
    case PageviewId(_, pageNumber, _) => PageviewToken(sessionId, pageNumber)
    case GoalId(name, _, _, timestamp, _, _) => GoalToken(sessionId, name, timestamp)
  }

  lemma CutPrefix(p: string, a: string, b: string)
    requires p + a == p + b
    ensures a == b
  {
    assert (p + a)[|p|..] == a;
    assert (p + b)[|p|..] == b;
  }

  /** The last underscore separates a goal's name from its timestamp, whatever the name contains. */
  lemma SplitAtLastUnderscore(a: string, s: int, b: string, t: int)
    ensures a + "_" + IntText(s) == b + "_" + IntText(t) ==> a == b && s == t
  {
    var x, y := a + "_" + IntText(s), b + "_" + IntText(t);
    assert x[|a|] == '_' && y[|b|] == '_';
    if |a| < |b| < |x| {
      assert x[|b|] == IntText(s)[|b| - |a| - 1];
    } else if |b| < |a| < |y| {
      assert y[|a|] == IntText(t)[|a| - |b| - 1];
    } else if |a| == |b| && x == y {
      assert a == x[..|a|] && b == y[..|b|];
      assert IntText(s) == x[|a| + 1..] && IntText(t) == y[|b| + 1..];
      IntTextInjective(s, t);
    }
  }

  lemma TokenKinds(sessionId: string, pageNumber: int, name: string, timestamp: int)
    ensures PageviewToken(sessionId, pageNumber) != GoalToken(sessionId, name, timestamp)
  {
    assert PageviewToken(sessionId, pageNumber)[|sessionId| + 1] == 'p';
    assert GoalToken(sessionId, name, timestamp)[|sessionId| + 1] == 'g';
  }

  /** Two actions of a session share a token exactly when they are pageviews with the same number, or goals
      with the same name and timestamp. */
  lemma TokensDetermineActions(sessionId: string, a: ActionId, b: ActionId)
    ensures Token(sessionId, a) == Token(sessionId, b) <==>
            || (a.PageviewId? && b.PageviewId? && a.pageNumber == b.pageNumber)
            || (a.GoalId? && b.GoalId? && a.name == b.name && a.timestamp == b.timestamp)
  {
    if a.PageviewId? && b.GoalId? {
      TokenKinds(sessionId, a.pageNumber, b.name, b.timestamp);
    } else if a.GoalId? && b.PageviewId? {
      TokenKinds(sessionId, b.pageNumber, a.name, a.timestamp);
    } else if Token(sessionId, a) == Token(sessionId, b) {
      if a.PageviewId? {
        CutPrefix(sessionId + "_pv_", IntText(a.pageNumber), IntText(b.pageNumber));
        IntTextInjective(a.pageNumber, b.pageNumber);
      } else {
        var p := sessionId + "_goal_";
        assert Token(sessionId, a) == p + (a.name + "_" + IntText(a.timestamp));
        assert Token(sessionId, b) == p + (b.name + "_" + IntText(b.timestamp));
        CutPrefix(p, a.name + "_" + IntText(a.timestamp), b.name + "_" + IntText(b.timestamp));
        SplitAtLastUnderscore(a.name, a.timestamp, b.name, b.timestamp);
      }
    }
  }

  /** In an action log, different actions have different tokens unless they are goals recorded under the same
      name in the same millisecond. */
  lemma LogTokensDiffer(sessionId: string, ids: seq<ActionId>, i: nat, j: nat)
    requires Numbered(ids) && i < j < |ids|
    ensures Token(sessionId, ids[i]) == Token(sessionId, ids[j]) <==>
            ids[i].GoalId? && ids[j].GoalId? && ids[i].name == ids[j].name && ids[i].timestamp == ids[j].timestamp
  {
    TokensDetermineActions(sessionId, ids[i], ids[j]);
    if ids[i].PageviewId? && ids[j].PageviewId? {
      CountUpTo(ids[..j], i);
      assert ids[..j][..i] == ids[..i];
    }
  }

  // ---------------------------------------------------------------- clock skew

  datatype ClockSkew = ClockSkew(skewMs: int, needsCorrection: bool)

  function CalculateClockSkew(sentAt: Option<int>, receivedAt: int): ClockSkew {
    if sentAt.None? then ClockSkew(0, false)
    else
      var skewMs := receivedAt - sentAt.value;
      if skewMs < -CLOCK_SKEW_THRESHOLD_MS then ClockSkew(skewMs, true)
      else if skewMs > CLOCK_SKEW_THRESHOLD_MS then ClockSkew(skewMs, true)
      else ClockSkew(skewMs, false)
  }

  /** The correction that is applied to every timestamp of a payload. */
  function Correction(sentAt: Option<int>, receivedAt: int): int {
    var skew := CalculateClockSkew(sentAt, receivedAt);
    if skew.needsCorrection then skew.skewMs else 0
  }

  function CorrectTimestamp(timestampMs: int, skewMs: int): int {
    timestampMs + skewMs
  }

  // ---------------------------------------------------------------- events

  type Enricher = TrackingEvent -> map<string, string>

  /** What the server knows about a request besides its payload: when it was sent and received, the geo
      columns, and the workspace's filters, of which only the columns they write matter here. */
  datatype Reception = Reception(sentAt: Option<int>, receivedAt: int, geo: map<string, string>, filters: Option<Enricher>)

  function PreviousPath(actions: seq<Action>): string {
    if actions == [] then ""
    else if actions[|actions| - 1].Pageview? then actions[|actions| - 1].path
    else PreviousPath(actions[..|actions| - 1])
  }

  function BaseEvent(p: Payload, r: Reception): TrackingEvent {
    var skewMs := Correction(r.sentAt, r.receivedAt);
    TrackingEvent(p.workspaceId, p.sessionId, "", r.receivedAt,
                  if skewMs != 0 then CorrectTimestamp(p.createdAt, skewMs) else p.createdAt,
                  if skewMs != 0 then CorrectTimestamp(p.updatedAt, skewMs) else p.updatedAt,
                  "", "", 0, 0, 0, "", "", 0.0, map[], 0, 0, None, p.attributes + r.geo)
  }

  function DeserializeAction(a: Action, base: TrackingEvent, sessionId: string, previousPath: string, skewMs: int): TrackingEvent {
    match a
    case Pageview(path, pageNumber, duration, scroll, enteredAt, exitedAt) =>
      base.(dedupToken := PageviewToken(sessionId, pageNumber), name := "screen_view", path := path,
            pageNumber := pageNumber, duration := duration, maxScroll := scroll, previousPath := previousPath,
            enteredAt := if skewMs != 0 then CorrectTimestamp(enteredAt, skewMs) else enteredAt,
            exitedAt := if skewMs != 0 then CorrectTimestamp(exitedAt, skewMs) else exitedAt)
    case Goal(name, path, pageNumber, timestamp, value, properties) =>
      var corrected := if skewMs != 0 then CorrectTimestamp(timestamp, skewMs) else timestamp;
      base.(dedupToken := GoalToken(sessionId, name, timestamp), name := "goal", path := path,
            pageNumber := pageNumber, goalName := name, goalValue := if value.Some? then value.value else 0.0,
            properties := properties, enteredAt := corrected, exitedAt := corrected, goalTimestamp := Some(corrected))
  }

  function ApplyFilters(e: TrackingEvent, filters: Option<Enricher>): TrackingEvent {
    if filters.Some? then e.(attributes := e.attributes + filters.value(e)) else e
  }

  function EventOf(p: Payload, r: Reception, i: nat): TrackingEvent
    requires i < |p.actions|
  {
    ApplyFilters(DeserializeAction(p.actions[i], BaseEvent(p, r), p.sessionId, PreviousPath(p.actions[..i]),
                                   Correction(r.sentAt, r.receivedAt)), r.filters)
  }

  function Events(p: Payload, r: Reception): (events: seq<TrackingEvent>)
    ensures |events| == |p.actions|
    ensures forall i | 0 <= i < |events| :: events[i] == EventOf(p, r, i)
  {
    seq(|p.actions|, i requires 0 <= i < |p.actions| => EventOf(p, r, i))
  }

  /** The key and version of an event do not depend on timestamps, skew, geo data or filters. */
  lemma EventIdentity(p: Payload, r: Reception, i: nat)
    requires i < |p.actions|
    ensures EventOf(p, r, i).Key() == EventKey(p.sessionId, Token(p.sessionId, p.actions[i].Id()))
    ensures EventOf(p, r, i).workspaceId == p.workspaceId && EventOf(p, r, i).sessionId == p.sessionId
    ensures EventOf(p, r, i).version == r.receivedAt
  {
  }

  lemma {:induction false} PreviousPathIs(actions: seq<Action>, j: nat)
    requires j <= |actions| && forall l | j <= l < |actions| :: !actions[l].Pageview?
    requires j > 0 ==> actions[j - 1].Pageview?
    ensures PreviousPath(actions) == if j > 0 then actions[j - 1].path else ""
  {
    if j < |actions| {
      PreviousPathIs(actions[..|actions| - 1], j);
    }
  }

  /** A pageview's row is the pageview as it was sent, together with the path of the last pageview before it: of action
      j - 1, or none if there is no pageview before it. */
  lemma PageviewRow(p: Payload, r: Reception, i: nat, j: nat)
    requires i < |p.actions| && p.actions[i].Pageview?
    requires j <= i && (j > 0 ==> p.actions[j - 1].Pageview?) && forall l | j <= l < i :: !p.actions[l].Pageview?
    ensures var e, a := EventOf(p, r, i), p.actions[i];
            && e.name == "screen_view" && e.path == a.path && e.pageNumber == a.pageNumber
            && e.duration == a.duration && e.maxScroll == a.scroll
            && e.previousPath == (if j > 0 then p.actions[j - 1].path else "")
            && e.goalName == "" && e.goalValue == 0.0 && e.properties == map[] && e.goalTimestamp == None
  {
    PreviousPathIs(p.actions[..i], j);
  }

  /** A goal's row is the goal as it was sent; a missing value is 0. It has nothing of a pageview. */
  lemma GoalRow(p: Payload, r: Reception, i: nat)
    requires i < |p.actions| && p.actions[i].Goal?
    ensures var e, a := EventOf(p, r, i), p.actions[i];
            && e.name == "goal" && e.goalName == a.name && e.path == a.path && e.pageNumber == a.pageNumber
            && e.properties == a.properties && (a.value.None? ==> e.goalValue == 0.0) && (a.value.Some? ==> e.goalValue == a.value.value)
            && e.duration == 0 && e.maxScroll == 0 && e.previousPath == "" && e.goalTimestamp.Some?
  {
  }

  /** All rows of a payload have its attributes, over which geo data take precedence, and nothing but attributes is left
      to the workspace's filters. */
  lemma RowAttributes(p: Payload, r: Reception, i: nat)
    requires i < |p.actions|
    ensures var plain := EventOf(p, r.(filters := None), i);
            && (forall k | k in p.attributes && k !in r.geo :: k in plain.attributes && plain.attributes[k] == p.attributes[k])
            && (forall k | k in r.geo :: k in plain.attributes && plain.attributes[k] == r.geo[k])
            && (forall k | k in plain.attributes :: k in p.attributes || k in r.geo)
            && EventOf(p, r, i) == (match r.filters
                                    case None => plain
                                    case Some(filters) => plain.(attributes := plain.attributes + filters(plain)))
  {
  }

  /** All times of a payload are moved by the difference between the two clocks if that is more than five seconds either
      way, and not at all otherwise, or without a send time. */
  lemma RowTimes(p: Payload, r: Reception, i: nat, shift: int)
    requires i < |p.actions|
    requires shift == match r.sentAt
                      case None => 0
                      case Some(sent) => if -5000 <= r.receivedAt - sent <= 5000 then 0 else r.receivedAt - sent
    ensures var e := EventOf(p, r, i);
            && e.createdAt == p.createdAt + shift && e.updatedAt == p.updatedAt + shift
            && match p.actions[i]
               case Pageview(_, _, _, _, enteredAt, exitedAt) => e.enteredAt == enteredAt + shift && e.exitedAt == exitedAt + shift
               case Goal(_, _, _, timestamp, _, _) =>
                 e.enteredAt == e.exitedAt == timestamp + shift && e.goalTimestamp == Some(timestamp + shift)
  {
  }

  /** A moment read off the client's clock and stored by the server. */
  ghost predicate StoredWithin(stored: int, trueTime: int, delay: int, corrected: bool) {
    && -(CLOCK_SKEW_THRESHOLD_MS + delay) <= stored - trueTime <= CLOCK_SKEW_THRESHOLD_MS + delay
    && (corrected ==> stored == trueTime + delay)
  }

  /** Clock skew: if the client's clock is off by a constant and the request takes `delay` to be handled, then
      every stored timestamp is within 5000 + delay ms of the true time, and exactly `delay` late when it was
      corrected, no matter how long before sending the action happened. */
  lemma ClockSkewBound(p: Payload, r: Reception, i: nat, offset: int, delay: nat)
    requires i < |p.actions| && r.sentAt == Some(r.receivedAt - delay + offset)
    ensures var e, corrected := EventOf(p, r, i), CalculateClockSkew(r.sentAt, r.receivedAt).needsCorrection;
            && StoredWithin(e.createdAt, p.createdAt - offset, delay, corrected)
            && StoredWithin(e.updatedAt, p.updatedAt - offset, delay, corrected)
            && match p.actions[i]
               case Pageview(_, _, duration, _, enteredAt, exitedAt) =>
                 && StoredWithin(e.enteredAt, enteredAt - offset, delay, corrected)
                 && StoredWithin(e.exitedAt, exitedAt - offset, delay, corrected)
                 && e.duration == duration
               case Goal(_, _, _, timestamp, _, _) =>
                 && e.enteredAt == e.exitedAt && e.goalTimestamp == Some(e.enteredAt)
                 && StoredWithin(e.enteredAt, timestamp - offset, delay, corrected)
  {
  }

  function EntryTime(a: Action): int {
    match a
    case Pageview(_, _, _, _, enteredAt, _) => enteredAt
    case Goal(_, _, _, timestamp, _, _) => timestamp
  }

  /** Gaps and order inside a payload are kept, whatever the skew. */
  lemma GapsKept(p: Payload, r: Reception, i: nat, j: nat)
    requires i < |p.actions| && j < |p.actions|
    ensures EventOf(p, r, j).enteredAt - EventOf(p, r, i).enteredAt == EntryTime(p.actions[j]) - EntryTime(p.actions[i])
    ensures p.actions[i].Pageview? ==>
              EventOf(p, r, i).exitedAt - EventOf(p, r, i).enteredAt == p.actions[i].exitedAt - p.actions[i].enteredAt
  {
  }

  // ---------------------------------------------------------------- the class

  datatype Workspace = Workspace(id: string, filters: Option<Enricher>)
  datatype CachedWorkspace = CachedWorkspace(workspace: Workspace, expiresAt: int)
  datatype HandleResult = Rejected | Accepted(events: seq<TrackingEvent>)

  lemma PlainEvent(p: Payload, r: Reception, i: nat)
    requires i < |p.actions|
    ensures EventOf(p, r.(filters := None), i)
            == DeserializeAction(p.actions[i], BaseEvent(p, r), p.sessionId, PreviousPath(p.actions[..i]), Correction(r.sentAt, r.receivedAt))
  {
  }

  lemma NextPreviousPath(actions: seq<Action>, i: nat)
    requires i < |actions|
    ensures PreviousPath(actions[..i + 1]) == if actions[i].Pageview? then actions[i].path else PreviousPath(actions[..i])
  {
    assert actions[..i + 1][..i] == actions[..i];
  }

  class Handler {
    var workspaceCache: map<string, CachedWorkspace>

    constructor ()
      ensures workspaceCache == map[]
    {
      workspaceCache := map[];
    }

    /** The workspace `getWorkspace` works with: the cached one while it is fresh, else `loaded`, which is what
        the workspace service answers if it is asked (None when it fails). */
    function Resolve(workspaceId: string, now: int, loaded: Option<Workspace>): Option<Workspace>
      reads this
    {
      if workspaceId in workspaceCache && workspaceCache[workspaceId].expiresAt > now
      then Some(workspaceCache[workspaceId].workspace) else loaded
    }

    method GetWorkspace(workspaceId: string, now: int, loaded: Option<Workspace>) returns (w: Option<Workspace>)
      modifies this
      ensures w == old(Resolve(workspaceId, now, loaded)) == Resolve(workspaceId, now, loaded)
      ensures w.Some? ==> workspaceId in workspaceCache && workspaceCache[workspaceId].workspace == w.value
      ensures workspaceCache != old(workspaceCache) ==>
                && (workspaceId in old(workspaceCache) ==> old(workspaceCache)[workspaceId].expiresAt <= now)
                && workspaceId in workspaceCache && workspaceCache[workspaceId].expiresAt == now + CACHE_TTL_MS
      ensures w.Some? ==> now < workspaceCache[workspaceId].expiresAt
      ensures forall id | id != workspaceId :: (id in workspaceCache <==> id in old(workspaceCache))
                && (id in workspaceCache ==> workspaceCache[id] == old(workspaceCache)[id])
    {
      if workspaceId in workspaceCache && workspaceCache[workspaceId].expiresAt > now {
        return Some(workspaceCache[workspaceId].workspace);
      }
      if loaded.Some? {
        workspaceCache := workspaceCache[workspaceId := CachedWorkspace(loaded.value, now + CACHE_TTL_MS)];
      }
      return loaded;
    }

    /** The filters or the settings of a workspace changed: the next request loads it again. */
    method InvalidateWorkspace(workspaceId: string)
      modifies this
      ensures workspaceId !in workspaceCache
      ensures forall id | id != workspaceId :: (id in workspaceCache <==> id in old(workspaceCache))
                && (id in workspaceCache ==> workspaceCache[id] == old(workspaceCache)[id])
      ensures forall now, loaded :: Resolve(workspaceId, now, loaded) == loaded
    {
      workspaceCache := workspaceCache - {workspaceId};
    }

    /** The event of one action, before filters. */
    method DeserializeOne(p: Payload, r: Reception, i: nat, base: TrackingEvent, skew: ClockSkew, previousPath: string)
      returns (event: TrackingEvent)
      requires i < |p.actions| && base == BaseEvent(p, r) && skew == CalculateClockSkew(r.sentAt, r.receivedAt)
      requires previousPath == PreviousPath(p.actions[..i])
      ensures event == EventOf(p, r.(filters := None), i)
    {
      event := DeserializeAction(p.actions[i], base, p.sessionId, previousPath, if skew.needsCorrection then skew.skewMs else 0);
      PlainEvent(p, r, i);
    }

    /** The action loop of `handle`. */
    method DeserializeActions(p: Payload, r: Reception) returns (events: seq<TrackingEvent>)
      ensures events == Events(p, r.(filters := None))
    {
      var skew := CalculateClockSkew(r.sentAt, r.receivedAt);
      var base := BaseEvent(p, r);
      var previousPath := "";
      events := [];
      for i := 0 to |p.actions|
        invariant |events| == i
        invariant previousPath == PreviousPath(p.actions[..i])
        invariant forall j | 0 <= j < i :: events[j] == EventOf(p, r.(filters := None), j)
      {
        var event := DeserializeOne(p, r, i, base, skew, previousPath);
        NextPreviousPath(p.actions, i);
        events := events + [event];
        if p.actions[i].Pageview? {
          previousPath := p.actions[i].path;
        }
      }
    }

    /** `handle` up to the buffer: the events it hands over, in order. The version is read off the clock after
        the workspace has been awaited. */
    method Handle(p: Payload, sentAt: Option<int>, loaded: Option<Workspace>, domainAllowed: bool,
                  geo: map<string, string>, now: int, version: int) returns (result: HandleResult)
      modifies this
      ensures result == match old(Resolve(p.workspaceId, now, loaded))
                        case None => Rejected
                        case Some(w) => Accepted(if domainAllowed then Events(p, Reception(sentAt, version, geo, w.filters)) else [])
    {
      var workspace := GetWorkspace(p.workspaceId, now, loaded);
      if workspace.None? { return Rejected; }
      if !domainAllowed { return Accepted([]); }
      var r := Reception(sentAt, version, geo, workspace.value.filters);
      if |p.actions| == 0 {
        assert Events(p, r) == [];
        return Accepted([]);
      }
      var events := DeserializeActions(p, r);
      if workspace.value.filters.Some? {
        for i := 0 to |events|
          invariant |events| == |p.actions|
          invariant forall j | 0 <= j < i :: events[j] == EventOf(p, r, j)
          invariant forall j | i <= j < |events| :: events[j] == EventOf(p, r.(filters := None), j)
        {
          events := events[i := ApplyFilters(events[i], workspace.value.filters)];
        }
      }
      assert events == Events(p, r);
      return Accepted(events);
    }
  }
}
