/** What gets into the log and into payloads: every call is recorded once, payloads carry the log as it is when they are
    sent, and what happens to a page that was left and is returned to. */
module SdkActions {
  import opened EventTable
  import opened SessionPayload
  import opened SessionState
  import opened Heartbeat
  import opened Sdk
  import opened SdkFocus

  // ---------------------------------------------------------------- the log is the calls

  predicate Records(event: ClientEvent) {
    event.Navigation? || event.TrackPageView? || event.TrackGoal?
  }

  /** The action is what the call asked to record, at the time of the call. */
  ghost predicate RecordedBy(id: ActionId, e: Occurrence) {
    match id
    case PageviewId(path, _, enteredAt) =>
      && enteredAt == e.now
      && ((e.event.Navigation? && e.event.path == path) || (e.event.TrackPageView? && e.event.path == path))
    case GoalId(name, _, _, timestamp, value, properties) =>
      timestamp == e.now && e.event == TrackGoal(name, value, properties)
  }

  /** What a step of the same session, other than a restore, does to the log. */
  ghost predicate RecordsStep(before: seq<ActionId>, e: Occurrence, after: seq<ActionId>) {
    if Records(e.event) && |before| < 1000 then
      |after| == |before| + 1 && after[..|before|] == before && RecordedBy(after[|before|], e)
    else after == before
  }

  predicate KeepsSession(event: ClientEvent) {
    !event.Reset? && event != PageShow(true)
  }

  lemma PageIsRecorded(log: Log, path: string, scroll: Option<int>, focusMs: int, e: Occurrence)
    requires Ordered(log)
    requires (e.event.Navigation? && e.event.path == path) || (e.event.TrackPageView? && e.event.path == path)
    ensures RecordsStep(Ids(log.actions), e, Ids(AddPageview(Scrolled(log, scroll), path, focusMs, e.now).actions))
  {
    var scrolled := Scrolled(log, scroll);
    if scroll.Some? {
      ScrollKeepsIds(log, scroll.value);
      ScrollKeepsLog(log, scroll.value);
    }
    assert Ids(scrolled.actions) == Ids(log.actions);
    PageviewIsRecorded(scrolled, path, focusMs, e.now);
    PageviewKeepsOrdered(scrolled, path, focusMs, e.now);
    if |log.actions| < 1000 {
      var after := AddPageview(scrolled, path, focusMs, e.now);
      assert Ids(after.actions)[|log.actions|] == after.actions[|log.actions|].Id();
    }
  }

  lemma GoalIsLogged(c: Client, e: Occurrence)
    requires Ordered(c.log) && e.event.TrackGoal?
    ensures RecordsStep(Ids(c.log.actions), e,
                        Ids(Build(c.(log := AddGoal(c.log, e.event.name, e.event.value, e.event.properties, e.now)), e.now).log.actions))
  {
    var added := AddGoal(c.log, e.event.name, e.event.value, e.event.properties, e.now);
    GoalIsRecorded(c.log, e.event.name, e.event.value, e.event.properties, e.now);
    GoalKeepsOrdered(c.log, e.event.name, e.event.value, e.event.properties, e.now);
    TouchKeepsIds(added, FocusMs(c, e.now), e.now);
    if |c.log.actions| < 1000 {
      assert Ids(added.actions)[|c.log.actions|] == added.actions[|c.log.actions|].Id();
    }
  }

  lemma FlushKeepsIds(c: Client, scroll: Option<int>, stored: bool, now: int)
    ensures Ids(FlushOnce(c, scroll, stored, now).log.actions) == Ids(c.log.actions)
  {
    if !c.flushed {
      if scroll.Some? { ScrollKeepsIds(c.log, scroll.value); }
      var scrolled := Scrolled(c.log, scroll);
      TouchKeepsIds(scrolled, FocusMs(c, now), now);
      TouchKeepsIds(FinalizeForUnload(scrolled, FocusMs(c, now), now), FocusMs(c, now), now);
    }
  }

  lemma QuietKeepsIds(cfg: HeartbeatConfig, c: Client, event: ClientEvent, now: int)
    requires KeepsSession(event) && !Records(event)
    ensures Ids(Step(cfg, c, event, now).log.actions) == Ids(c.log.actions)
  {
    if event.Blur? || event.VisibilityHidden? || event.Freeze? {
      FlushKeepsIds(StopActivity(Tick(c, now), now), event.scroll, event.stored, now);
    } else if event.Unload? {
      FlushKeepsIds(Tick(c, now), event.scroll, event.stored, now);
    } else if event.Ping? {
      if event.scroll.Some? { ScrollKeepsIds(c.log, event.scroll.value); }
    }
  }

  lemma NavigationRecords(cfg: HeartbeatConfig, c: Client, e: Occurrence)
    requires Ordered(c.log) && e.event.Navigation?
    ensures RecordsStep(Ids(c.log.actions), e, Ids(Step(cfg, c, e.event, e.now).log.actions))
  {
    PageIsRecorded(c.log, e.event.path, e.event.scroll, FocusMs(c, e.now), e);
  }

  lemma PageViewRecords(cfg: HeartbeatConfig, c: Client, e: Occurrence)
    requires Ordered(c.log) && e.event.TrackPageView?
    ensures RecordsStep(Ids(c.log.actions), e, Ids(Step(cfg, c, e.event, e.now).log.actions))
  {
    PageIsRecorded(c.log, e.event.path, e.event.scroll, FocusMs(c, e.now), e);
  }

  lemma StepRecords(cfg: HeartbeatConfig, c: Client, e: Occurrence)
    requires Ordered(c.log) && KeepsSession(e.event)
    ensures RecordsStep(Ids(c.log.actions), e, Ids(Step(cfg, c, e.event, e.now).log.actions))
  {
    if e.event.Navigation? {
      NavigationRecords(cfg, c, e);
    } else if e.event.TrackPageView? {
      PageViewRecords(cfg, c, e);
    } else if e.event.TrackGoal? {
      GoalIsLogged(Tick(c, e.now), e);
    } else {
      QuietKeepsIds(cfg, c, e.event, e.now);
    }
  }

  /** The calls that record something, in order. */
  function Calls(events: seq<Occurrence>): seq<Occurrence> {
    if events == [] then []
    else
      var n := |events| - 1;
      Calls(events[..n]) + if Records(events[n].event) then [events[n]] else []
  }

  ghost predicate SameSession(cfg: HeartbeatConfig, states: seq<Client>, events: seq<Occurrence>, m: nat, n: nat) {
    IsRun(cfg, states, events) && m <= n < |states| && forall i | m <= i < n :: KeepsSession(events[i].event)
  }

  ghost predicate RecordsAt(states: seq<Client>, events: seq<Occurrence>, i: nat)
    requires i < |events| && i + 1 < |states|
  {
    RecordsStep(Ids(states[i].log.actions), events[i], Ids(states[i + 1].log.actions))
  }

  /** A log continues another with one action for each of these calls, in order, as far as there is room for 1000. */
  ghost predicate Continues(before: seq<ActionId>, calls: seq<Occurrence>, after: seq<ActionId>) {
    && before <= after
    && |after| == (if |before| + |calls| <= 1000 then |before| + |calls| else 1000)
    && forall j | 0 <= j < |after| - |before| :: RecordedBy(after[|before| + j], calls[j])
  }

  lemma OneMoreCall(before: seq<ActionId>, calls: seq<Occurrence>, ids: seq<ActionId>, e: Occurrence, after: seq<ActionId>)
    requires |before| <= 1000 && Continues(before, calls, ids) && RecordsStep(ids, e, after)
    ensures Continues(before, if Records(e.event) then calls + [e] else calls, after)
  {
  }

  lemma {:induction false} LogContinues(states: seq<Client>, events: seq<Occurrence>, m: nat, n: nat)
    requires |states| == |events| + 1 && m <= n < |states| && |states[m].log.actions| <= 1000
    requires forall i | m <= i < n :: RecordsAt(states, events, i)
    ensures Continues(Ids(states[m].log.actions), Calls(events[m..n]), Ids(states[n].log.actions))
    decreases n
  {
    if n > m {
      LogContinues(states, events, m, n - 1);
      assert RecordsAt(states, events, n - 1);
      assert events[m..n][..n - 1 - m] == events[m..n - 1];
      OneMoreCall(Ids(states[m].log.actions), Calls(events[m..n - 1]), Ids(states[n - 1].log.actions), events[n - 1],
                  Ids(states[n].log.actions));
    }
  }

  /** The log is the calls: within a session, without a restore, it grows by exactly one action for each pageview and each
      goal, in order and as given, up to 1000, and by nothing else. */
  lemma LogIsCalls(cfg: HeartbeatConfig, states: seq<Client>, events: seq<Occurrence>, m: nat, n: nat)
    requires SameSession(cfg, states, events, m, n)
    ensures Continues(Ids(states[m].log.actions), Calls(events[m..n]), Ids(states[n].log.actions))
  {
    forall i | m <= i < n ensures RecordsAt(states, events, i) {
      RunKeepsInv(cfg, states, events, i);
      StepRecords(cfg, states[i], events[i]);
      assert states[i + 1] == Step(cfg, states[i], events[i].event, events[i].now);
    }
    RunKeepsInv(cfg, states, events, m);
    LogContinues(states, events, m, n);
  }

  /** A session begins with the page it is on, after what storage has of it. */
  lemma SessionBegins(cfg: HeartbeatConfig, session: Session, saved: Option<Saved>, path: string, now: int, before: Log)
    requires before == if IsFor(saved, session.sessionId) then saved.value.log else EmptyLog
    requires GoodStart(session, saved)
    ensures var ids := Ids(Start(cfg, session, saved, path, now).log.actions);
            if |before.actions| >= 1000 then ids == Ids(before.actions)
            else ids == Ids(before.actions) + [PageviewId(path, PageviewCount(Ids(before.actions)) + 1, now)]
  {
    var log := AddPageview(before, path, PageActiveMs(INITIAL_STATE, now), now);
    PageviewIsRecorded(before, path, PageActiveMs(INITIAL_STATE, now), now);
    if before != EmptyLog {
      PageviewKeepsOrdered(before, path, PageActiveMs(INITIAL_STATE, now), now);
    }
    TouchKeepsIds(log, FocusMs(Begun(cfg, session, saved, path, now), now), now);
    if |before.actions| < 1000 {
      assert Ids(log.actions)[|before.actions|] == log.actions[|before.actions|].Id();
    }
  }

  lemma ResetBegins(cfg: HeartbeatConfig, c: Client, session: Session, path: string, now: int)
    ensures var after := Step(cfg, c, Reset(session, path), now);
            Ids(after.log.actions) == [PageviewId(path, 1, now)] && after.session == session
  {
    FirstPageview(path, FocusMs(c, now), now);
  }

  /** What was stored is restored as it was. */
  lemma StoredIsRestored(c: Client)
    ensures Restore(SavePoint(c, true)).log == c.log
  {
  }

  // ---------------------------------------------------------------- payloads

  /** The page is left for the first time since it was last shown or focused. */
  predicate LeavesPage(c: Client, event: ClientEvent) {
    (event.Blur? || event.VisibilityHidden? || event.Freeze? || event.Unload?) && !c.flushed
  }

  predicate Sends(c: Client, event: ClientEvent) {
    || LeavesPage(c, event) || event.SendPayload? || event.TrackGoal? || event.Reset?
    || (event.Ping? && event.visible && !c.isPaused && c.heartbeat.isActive)
  }

  /** The last payload carries the session and the log as they are, and the time of its building. */
  ghost predicate JustSent(c: Client, now: int) {
    c.payloads != []
    && c.payloads[|c.payloads| - 1]
       == Payload(c.session.workspaceId, c.session.sessionId, c.log.actions, c.session.attributes, c.session.createdAt, now)
  }

  lemma ActivitySendsIff(cfg: HeartbeatConfig, c: Client, event: ClientEvent, now: int)
    requires IsActivityEvent(event)
    ensures var after := Step(cfg, c, event, now);
            if Sends(c, event) then after.payloads[..|after.payloads| - 1] == c.payloads && JustSent(after, now)
            else after.payloads == c.payloads
  {
  }

  lemma RequestSendsIff(cfg: HeartbeatConfig, c: Client, event: ClientEvent, now: int)
    requires !IsActivityEvent(event)
    ensures var after := Step(cfg, c, event, now);
            if Sends(c, event) then |after.payloads| > 0 && after.payloads[..|after.payloads| - 1] == c.payloads && JustSent(after, now)
            else after.payloads == c.payloads
  {
  }

  /** A step sends one payload or none, and what it sends is the log, with the durations as they then are. */
  lemma SendsIff(cfg: HeartbeatConfig, c: Client, event: ClientEvent, now: int)
    ensures var after := Step(cfg, c, event, now);
            if Sends(c, event) then |after.payloads| > 0 && after.payloads[..|after.payloads| - 1] == c.payloads && JustSent(after, now)
            else after.payloads == c.payloads
  {
    if IsActivityEvent(event) {
      ActivitySendsIff(cfg, c, event, now);
    } else {
      RequestSendsIff(cfg, c, event, now);
    }
  }

  /** The page was left after it was last shown or focused. */
  ghost predicate LeftLast(events: seq<Occurrence>, n: nat)
    requires n <= |events|
    decreases n
  {
    n > 0
    && var event := events[n - 1].event;
       || event.Blur? || event.VisibilityHidden? || event.Freeze? || event.Unload?
       || (!IsActivation(event) && LeftLast(events, n - 1))
  }

  lemma FlushedStep(cfg: HeartbeatConfig, c: Client, event: ClientEvent, now: int)
    ensures Step(cfg, c, event, now).flushed <==>
              event.Blur? || event.VisibilityHidden? || event.Freeze? || event.Unload? || (!IsActivation(event) && c.flushed)
  {
  }

  /** One final payload for each time a page is left: leaving sends unless the page was left before and has not been shown
      or focused since. */
  lemma {:induction false} FlushedIff(cfg: HeartbeatConfig, states: seq<Client>, events: seq<Occurrence>, n: nat)
    requires IsRun(cfg, states, events) && n < |states|
    ensures states[n].flushed <==> LeftLast(events, n)
  {
    if n == 0 {
      var session, saved, path, now :| GoodStart(session, saved) && states[0] == Start(cfg, session, saved, path, now);
    } else {
      FlushedIff(cfg, states, events, n - 1);
      FlushedStep(cfg, states[n - 1], events[n - 1].event, events[n - 1].now);
    }
  }

  // ---------------------------------------------------------------- scroll depth, storage and pings

  /** The event reads the scroll tracker for the page that is open. */
  predicate ReadsScroll(c: Client, event: ClientEvent) {
    || LeavesPage(c, event) || event.Navigation? || event.TrackPageView?
    || (event.Ping? && event.visible && !c.isPaused && c.heartbeat.isActive)
  }

  /** A reading, cut to the range from 0 to 100, deepens the page if it is greater. */
  ghost predicate Deepens(before: int, reading: Option<int>, after: int) {
    match reading
    case None => after == before
    case Some(x) => after >= before && (after == before || IsDepth(x, after)) && forall d | IsDepth(x, d) :: after >= d
  }

  lemma ScrolledDeepens(log: Log, scroll: Option<int>, i: nat)
    requires CurrentIsLast(log) && log.current == Some(i)
    ensures var r := Scrolled(log, scroll);
            r.current == Some(i) && |r.actions| == |log.actions| && r.actions[i].Pageview? && CurrentIsLast(r)
            && Deepens(log.actions[i].scroll, scroll, r.actions[i].scroll)
  {
  }

  ghost predicate DeepensAt(c: Client, e: Occurrence, after: Log, i: nat) {
    && i < |c.log.actions| && c.log.actions[i].Pageview? && i < |after.actions| && after.actions[i].Pageview?
    && Deepens(c.log.actions[i].scroll, if ReadsScroll(c, e.event) then e.event.scroll else None, after.actions[i].scroll)
  }

  lemma LeavingDeepens(cfg: HeartbeatConfig, c: Client, e: Occurrence, i: nat)
    requires CurrentIsLast(c.log) && c.log.current == Some(i) && IsActivityEvent(e.event) && e.event != PageShow(true)
    ensures DeepensAt(c, e, Step(cfg, c, e.event, e.now).log, i)
  {
    if LeavesPage(c, e.event) {
      ScrolledDeepens(c.log, e.event.scroll, i);
      TouchWritesCurrentPage(Scrolled(c.log, e.event.scroll), FocusMs(c, e.now), e.now);
    }
  }

  lemma EnteredDeepens(log: Log, path: string, scroll: Option<int>, focusMs: int, now: int, i: nat)
    requires Ordered(log) && log.current == Some(i)
    ensures var r := AddPageview(Scrolled(log, scroll), path, focusMs, now);
            i < |r.actions| && r.actions[i].Pageview? && Deepens(log.actions[i].scroll, scroll, r.actions[i].scroll)
  {
    ScrolledDeepens(log, scroll, i);
    if scroll.Some? { ScrollKeepsLog(log, scroll.value); }
    PageviewIsRecorded(Scrolled(log, scroll), path, focusMs, now);
  }

  lemma NavigationDeepens(cfg: HeartbeatConfig, c: Client, e: Occurrence, i: nat)
    requires Ordered(c.log) && c.log.current == Some(i) && e.event.Navigation?
    ensures DeepensAt(c, e, Step(cfg, c, e.event, e.now).log, i)
  {
    EnteredDeepens(c.log, e.event.path, e.event.scroll, FocusMs(c, e.now), e.now, i);
  }

  lemma PageViewDeepens(cfg: HeartbeatConfig, c: Client, e: Occurrence, i: nat)
    requires Ordered(c.log) && c.log.current == Some(i) && e.event.TrackPageView?
    ensures DeepensAt(c, e, Step(cfg, c, e.event, e.now).log, i)
  {
    EnteredDeepens(c.log, e.event.path, e.event.scroll, FocusMs(c, e.now), e.now, i);
  }

  lemma RequestDeepens(cfg: HeartbeatConfig, c: Client, e: Occurrence, i: nat)
    requires Ordered(c.log) && c.log.current == Some(i) && OnSamePage(e.event) && !IsActivityEvent(e.event)
    ensures DeepensAt(c, e, Step(cfg, c, e.event, e.now).log, i)
  {
    var t := Tick(c, e.now);
    match e.event {
      case TrackGoal(name, value, properties) =>
        TouchWritesCurrentPage(AddGoal(c.log, name, value, properties, e.now), FocusMs(t, e.now), e.now);
      case Ping(_, scroll) =>
        ScrolledDeepens(c.log, scroll, i);
        TouchWritesCurrentPage(Scrolled(c.log, scroll), FocusMs(t, e.now), e.now);
      case SendPayload => TouchWritesCurrentPage(c.log, FocusMs(t, e.now), e.now);
      case _ =>
    }
  }

  /** The scroll depth of the current page becomes the greatest reading: whenever the page is left, another is entered or a
      ping is sent, before anything is sent or stored, and at no other event. */
  lemma ScrollStep(cfg: HeartbeatConfig, c: Client, e: Occurrence, i: nat)
    requires Ordered(c.log) && c.log.current == Some(i) && !e.event.Reset? && e.event != PageShow(true)
    ensures DeepensAt(c, e, Step(cfg, c, e.event, e.now).log, i)
  {
    if e.event.Navigation? {
      NavigationDeepens(cfg, c, e, i);
    } else if e.event.TrackPageView? {
      PageViewDeepens(cfg, c, e, i);
    } else if IsActivityEvent(e.event) {
      LeavingDeepens(cfg, c, e, i);
    } else {
      RequestDeepens(cfg, c, e, i);
    }
  }

  /** The event writes the log to storage, if writing succeeds. */
  predicate Stores(c: Client, event: ClientEvent) {
    (LeavesPage(c, event) || event.Navigation? || event.TrackPageView? || event.Persist?) && event.stored
  }

  lemma ActivityStores(cfg: HeartbeatConfig, c: Client, event: ClientEvent, now: int)
    requires IsActivityEvent(event)
    ensures var after := Step(cfg, c, event, now);
            if Stores(c, event) then after.saved == Some(Saved(after.session.sessionId, after.log))
            else if event == PageShow(true) && c.saved.Some? && c.saved.value.sessionId != c.session.sessionId then after.saved == None
            else after.saved == c.saved
  {
  }

  lemma RequestStores(cfg: HeartbeatConfig, c: Client, event: ClientEvent, now: int)
    requires !IsActivityEvent(event)
    ensures var after := Step(cfg, c, event, now);
            if Stores(c, event) then after.saved == Some(Saved(after.session.sessionId, after.log))
            else if event.Elsewhere? then after.saved == Some(event.other)
            else after.saved == c.saved
  {
  }

  /** Storage gets the log as it is after leaving a page, entering one, or a request to persist. Another session's log is
      removed when a page returns, and otherwise only other documents change what is stored. */
  lemma StoresIff(cfg: HeartbeatConfig, c: Client, event: ClientEvent, now: int)
    ensures var after := Step(cfg, c, event, now);
            if Stores(c, event) then after.saved == Some(Saved(after.session.sessionId, after.log))
            else if event.Elsewhere? then after.saved == Some(event.other)
            else if event == PageShow(true) && c.saved.Some? && c.saved.value.sessionId != c.session.sessionId then after.saved == None
            else after.saved == c.saved
  {
    if IsActivityEvent(event) {
      ActivityStores(cfg, c, event, now);
    } else {
      RequestStores(cfg, c, event, now);
    }
  }

  /** A ping that is sent is noted with its time and with the highest tier that the session time has reached. */
  lemma PingIsNoted(cfg: HeartbeatConfig, c: Client, scroll: Option<int>, now: int)
    requires cfg.tiers != [] && cfg.tiers[0].after == 0 && Ascending(cfg.tiers) && TotalActiveMs(c.heartbeat, now) >= 0
    requires !c.isPaused && c.heartbeat.isActive
    ensures var h := Step(cfg, c, Ping(true, scroll), now).heartbeat;
            && h.lastPingTime == now && h.currentTierIndex < |cfg.tiers|
            && forall k | 0 <= k < |cfg.tiers| :: cfg.tiers[k].after <= TotalActiveMs(c.heartbeat, now) <==> k <= h.currentTierIndex
  {
    CurrentTierIsHighest(cfg.tiers, TotalActiveMs(c.heartbeat, now));
  }

  // ---------------------------------------------------------------- leaving a page and returning to it

  predicate EntersPage(event: ClientEvent) {
    event.Navigation? || event.TrackPageView? || event.Reset?
  }

  /** Events on a page that neither change it nor restore another log. */
  predicate OnSamePage(event: ClientEvent) {
    !EntersPage(event) && event != PageShow(true)
  }

  /** Leaving a page makes it no longer current. All actions but the current page stay as they are. */
  ghost predicate PageFollows(before: Client, e: Occurrence, after: Client) {
    && after.log.current == (if LeavesPage(before, e.event) then None else before.log.current)
    && |before.log.actions| <= |after.log.actions|
    && forall i | 0 <= i < |before.log.actions| && before.log.current != Some(i) :: after.log.actions[i] == before.log.actions[i]
  }

  lemma TouchFollows(log: Log, focusMs: int, now: int)
    requires CurrentIsLast(log)
    ensures var r := Touch(log, focusMs, now);
            && r.current == log.current && |r.actions| == |log.actions| && CurrentIsLast(r)
            && forall i | 0 <= i < |log.actions| && log.current != Some(i) :: r.actions[i] == log.actions[i]
  {
    TouchWritesCurrentPage(log, focusMs, now);
  }

  lemma ScrolledFollows(log: Log, scroll: Option<int>)
    requires CurrentIsLast(log)
    ensures var r := Scrolled(log, scroll);
            && r.current == log.current && |r.actions| == |log.actions| && CurrentIsLast(r)
            && forall i | 0 <= i < |log.actions| && log.current != Some(i) :: r.actions[i] == log.actions[i]
  {
  }

  lemma LeavingFollows(c: Client, scroll: Option<int>, stored: bool, now: int)
    requires CurrentIsLast(c.log) && !c.flushed
    ensures var r := FlushOnce(c, scroll, stored, now).log;
            && r.current == None && |r.actions| == |c.log.actions|
            && (forall i | 0 <= i < |c.log.actions| && c.log.current != Some(i) :: r.actions[i] == c.log.actions[i])
            && (c.log.current.Some? ==>
                  var page := r.actions[c.log.current.value]; page.Pageview? && page.duration == FocusMs(c, now) && page.exitedAt == now)
  {
    ScrolledFollows(c.log, scroll);
    TouchWritesCurrentPage(Scrolled(c.log, scroll), FocusMs(c, now), now);
  }

  lemma ActivityFollows(cfg: HeartbeatConfig, c: Client, e: Occurrence)
    requires CurrentIsLast(c.log) && OnSamePage(e.event) && IsActivityEvent(e.event)
    ensures PageFollows(c, e, Step(cfg, c, e.event, e.now))
  {
    if LeavesPage(c, e.event) {
      var t := Tick(c, e.now);
      LeavingFollows(if e.event.Unload? then t else StopActivity(t, e.now), e.event.scroll, e.event.stored, e.now);
    }
  }

  lemma RequestFollows(cfg: HeartbeatConfig, c: Client, e: Occurrence)
    requires CurrentIsLast(c.log) && OnSamePage(e.event) && !IsActivityEvent(e.event)
    ensures PageFollows(c, e, Step(cfg, c, e.event, e.now))
  {
    var t := Tick(c, e.now);
    match e.event {
      case TrackGoal(name, value, properties) =>
        var added := AddGoal(c.log, name, value, properties, e.now);
        assert CurrentIsLast(added);
        TouchFollows(added, FocusMs(t, e.now), e.now);
      case Ping(_, scroll) =>
        ScrolledFollows(c.log, scroll);
        TouchFollows(Scrolled(c.log, scroll), FocusMs(t, e.now), e.now);
      case SendPayload => TouchFollows(c.log, FocusMs(t, e.now), e.now);
      case _ =>
    }
  }

  lemma SamePageFollows(cfg: HeartbeatConfig, c: Client, e: Occurrence)
    requires CurrentIsLast(c.log) && OnSamePage(e.event)
    ensures PageFollows(c, e, Step(cfg, c, e.event, e.now))
  {
    if IsActivityEvent(e.event) {
      ActivityFollows(cfg, c, e);
    } else {
      RequestFollows(cfg, c, e);
    }
  }

  ghost predicate PageFollowsAt(states: seq<Client>, events: seq<Occurrence>, i: nat)
    requires i < |events| && i + 1 < |states|
  {
    PageFollows(states[i], events[i], states[i + 1])
  }

  ghost predicate SamePage(cfg: HeartbeatConfig, states: seq<Client>, events: seq<Occurrence>, m: nat, n: nat) {
    IsRun(cfg, states, events) && m <= n < |states| && forall i | m <= i < n :: OnSamePage(events[i].event)
  }

  ghost predicate NotLeft(states: seq<Client>, events: seq<Occurrence>, m: nat, n: nat)
    requires m <= n <= |events| && n <= |states|
  {
    forall i | m <= i < n :: !LeavesPage(states[i], events[i].event)
  }

  lemma RunFollows(cfg: HeartbeatConfig, states: seq<Client>, events: seq<Occurrence>, m: nat, n: nat)
    requires SamePage(cfg, states, events, m, n)
    ensures forall i | m <= i < n :: PageFollowsAt(states, events, i)
  {
    forall i | m <= i < n ensures PageFollowsAt(states, events, i) {
      RunKeepsInv(cfg, states, events, i);
      SamePageFollows(cfg, states[i], events[i]);
      assert states[i + 1] == Step(cfg, states[i], events[i].event, events[i].now);
    }
  }

  lemma {:induction false} CurrentWhileNotLeft(states: seq<Client>, events: seq<Occurrence>, m: nat, n: nat)
    requires |states| == |events| + 1 && m <= n < |states| && forall i | m <= i < n :: PageFollowsAt(states, events, i)
    ensures states[n].log.current == if NotLeft(states, events, m, n) then states[m].log.current else None
    decreases n
  {
    if n > m {
      CurrentWhileNotLeft(states, events, m, n - 1);
      assert PageFollowsAt(states, events, n - 1);
    }
  }

  /** A page stays the current one until it is left for the first time, and is not current again when the visitor returns
      to it. */
  lemma PageIsCurrentIff(cfg: HeartbeatConfig, states: seq<Client>, events: seq<Occurrence>, m: nat, n: nat)
    requires SamePage(cfg, states, events, m, n) && states[m].log.current.Some?
    ensures states[n].log.current == states[m].log.current <==> NotLeft(states, events, m, n)
    ensures states[n].log.current == None <==> !NotLeft(states, events, m, n)
  {
    RunFollows(cfg, states, events, m, n);
    CurrentWhileNotLeft(states, events, m, n);
  }

  lemma {:induction false} PastStays(states: seq<Client>, events: seq<Occurrence>, m: nat, n: nat, i: nat)
    requires |states| == |events| + 1 && m <= n < |states| && forall k | m <= k < n :: PageFollowsAt(states, events, k)
    requires states[m].log.current == None && i < |states[m].log.actions|
    ensures states[n].log.current == None && i < |states[n].log.actions| && states[n].log.actions[i] == states[m].log.actions[i]
    decreases n
  {
    if n > m {
      PastStays(states, events, m, n - 1, i);
      assert PageFollowsAt(states, events, n - 1);
    }
  }

  lemma LeavingWritesFocus(cfg: HeartbeatConfig, c: Client, e: Occurrence, i: nat)
    requires CurrentIsLast(c.log) && c.log.current == Some(i) && LeavesPage(c, e.event)
    ensures var after := Step(cfg, c, e.event, e.now).log;
            && after.current == None && i < |after.actions| && after.actions[i].Pageview?
            && after.actions[i].duration == FocusMs(c, e.now) && after.actions[i].exitedAt == e.now
  {
    var t := Tick(c, e.now);
    if e.event.Unload? {
      LeavingFollows(t, e.event.scroll, e.event.stored, e.now);
    } else {
      LeavingFollows(StopActivity(t, e.now), e.event.scroll, e.event.stored, e.now);
    }
  }

  /** The focus time of a page is what it was when the page was first left, in everything that is sent until the next
      page: time after a return is not counted. */
  lemma FocusEndsWhenLeft(cfg: HeartbeatConfig, states: seq<Client>, events: seq<Occurrence>, k: nat, n: nat, i: nat)
    requires k < n < |states| && SamePage(cfg, states, events, k, n)
    requires states[k].log.current == Some(i) && LeavesPage(states[k], events[k].event)
    ensures i < |states[n].log.actions| && states[n].log.actions[i].Pageview?
    ensures states[n].log.actions[i].duration == FocusMs(states[k], events[k].now)
    ensures states[n].log.actions[i].exitedAt == events[k].now
  {
    RunKeepsInv(cfg, states, events, k);
    LeavingWritesFocus(cfg, states[k], events[k], i);
    assert states[k + 1] == Step(cfg, states[k], events[k].event, events[k].now);
    RunFollows(cfg, states, events, k, n);
    PastStays(states, events, k + 1, n, i);
  }

  /** While a page is current, everything that is sent carries its focus time at that moment. */
  lemma SentFocusIsLive(cfg: HeartbeatConfig, c: Client, e: Occurrence, i: nat)
    requires CurrentIsLast(c.log) && c.log.current == Some(i) && Sends(c, e.event) && !e.event.Reset?
    ensures var after := Step(cfg, c, e.event, e.now).log;
            && i < |after.actions| && after.actions[i].Pageview?
            && after.actions[i].duration == FocusMs(c, e.now) && after.actions[i].exitedAt == e.now
  {
    var t := Tick(c, e.now);
    match e.event {
      case TrackGoal(name, value, properties) =>
        TouchWritesCurrentPage(AddGoal(c.log, name, value, properties, e.now), FocusMs(t, e.now), e.now);
      case Ping(_, scroll) =>
        ScrolledFollows(c.log, scroll);
        TouchWritesCurrentPage(Scrolled(c.log, scroll), FocusMs(t, e.now), e.now);
      case SendPayload => TouchWritesCurrentPage(c.log, FocusMs(t, e.now), e.now);
      case _ => LeavingWritesFocus(cfg, c, e, i);
    }
  }

  /** The goal names the page by its number and its path. */
  ghost predicate NamesPage(goal: Action, page: Action) {
    goal.Goal? && goal.pageNumber == page.pageNumber && goal.path == if page.path == "" then "/" else page.path
  }

  lemma GoalGoesTo(cfg: HeartbeatConfig, c: Client, e: Occurrence)
    requires Ordered(c.log) && |c.log.actions| < 1000 && e.event.TrackGoal?
    ensures var after := Step(cfg, c, e.event, e.now).log; var n := |c.log.actions|;
            && |after.actions| == n + 1 && after.actions[n].Goal?
            && (c.log.current.None? ==> after.actions[n].path == "/" && after.actions[n].pageNumber == 1)
            && (c.log.current.Some? ==> NamesPage(after.actions[n], c.log.actions[c.log.current.value]))
  {
    GoalIsRecorded(c.log, e.event.name, e.event.value, e.event.properties, e.now);
    GoalKeepsOrdered(c.log, e.event.name, e.event.value, e.event.properties, e.now);
    TouchWritesCurrentPage(AddGoal(c.log, e.event.name, e.event.value, e.event.properties, e.now), FocusMs(c, e.now), e.now);
  }

  /** A goal is attributed to the page that the visitor is on if and only if the page has not been left since it was
      entered, or happens to be page 1 with the path "/". */
  lemma GoalNamesPageIff(cfg: HeartbeatConfig, states: seq<Client>, events: seq<Occurrence>, m: nat, n: nat, i: nat)
    requires SamePage(cfg, states, events, m, n) && states[m].log.current == Some(i) && n < |events|
    requires events[n].event.TrackGoal? && |states[n].log.actions| < 1000
    ensures i < |states[m].log.actions| && |states[n + 1].log.actions| == |states[n].log.actions| + 1
    ensures var goal, page := states[n + 1].log.actions[|states[n].log.actions|], states[m].log.actions[i];
            NamesPage(goal, page) <==>
            NotLeft(states, events, m, n) || (page.pageNumber == 1 && (page.path == "/" || page.path == ""))
  {
    RunKeepsInv(cfg, states, events, m);
    RunKeepsInv(cfg, states, events, n);
    PageIsCurrentIff(cfg, states, events, m, n);
    GoalGoesTo(cfg, states[n], events[n]);
    assert states[n + 1] == Step(cfg, states[n], events[n].event, events[n].now);
    LogIsCalls(cfg, states, events, m, n);
    assert Ids(states[n].log.actions)[i] == Ids(states[m].log.actions)[i];
  }

  lemma VisitStarts(session: Session)
    ensures var c := Start(CONFIG, session, None, "/pricing", 0);
            && IsStart(CONFIG, c) && c.clock == 0 && !c.isPaused && !c.flushed
            && c.log == Log([Pageview("/pricing", 1, 0, 0, 0, 0)], Some(0))
            && c.heartbeat == HeartbeatState(0, 0, true, false, 0, 0, 0, 0)
  {
    assert GoodStart(session, None);
    FirstPageview("/pricing", 0, 0);
    StaysActive(HeartbeatState(0, 0, true, false, 0, 0, 0, 0), 0);
  }

  lemma ReturnResumes(c: Client)
    requires !c.isPaused && c.heartbeat == HeartbeatState(0, 0, true, false, 0, 0, 0, 0)
    ensures var away := Step(CONFIG, c, Blur(None, true), 10000);
            var back := Step(CONFIG, away, Focus, 20000);
            away.clock == 10000 && back.clock == 20000 && FocusMs(back, 60000) == 50000
  {
    StaysActive(HeartbeatState(20000, 10000, true, false, 20000, 0, 10000, 20000), 20000);
  }

  /** It happens: after ten seconds on a page the visitor looks away for ten seconds, returns, and converts 40 seconds
      later. The goal goes to page 1 with the path "/", and the page is sent with 10 of its 50 seconds of focus. */
  lemma ReturnIsNotCounted(session: Session) returns (states: seq<Client>, events: seq<Occurrence>)
    ensures IsRun(CONFIG, states, events) && |events| == 3
    ensures FocusMs(states[2], events[2].now) == 50000
    ensures var sent := states[3].log.actions;
            && |sent| == 2 && sent[0].Pageview? && sent[0].path == "/pricing" && sent[0].duration == 10000
            && sent[1].Goal? && sent[1].path == "/" && !NamesPage(sent[1], sent[0])
    ensures |states[3].payloads| > 0 && states[3].payloads[|states[3].payloads| - 1].actions == states[3].log.actions
  {
    events := [Occurrence(Blur(None, true), 10000), Occurrence(Focus, 20000), Occurrence(TrackGoal("buy", None, map[]), 60000)];
    var c0 := Start(CONFIG, session, None, "/pricing", 0);
    VisitStarts(session);
    ReturnResumes(c0);
    var c1 := Step(CONFIG, c0, events[0].event, 10000);
    var c2 := Step(CONFIG, c1, events[1].event, 20000);
    var c3 := Step(CONFIG, c2, events[2].event, 60000);
    states := [c0, c1, c2, c3];
    forall i | 0 <= i < 3
      ensures CanHappen(states[i], events[i].event, events[i].now)
      ensures states[i + 1] == Step(CONFIG, states[i], events[i].event, events[i].now)
    {
      if i == 0 {} else if i == 1 {} else {}
    }
    ReturnIsLost(states, events);
  }

  lemma ReturnIsLost(states: seq<Client>, events: seq<Occurrence>)
    requires IsRun(CONFIG, states, events) && |events| == 3
    requires states[0].log == Log([Pageview("/pricing", 1, 0, 0, 0, 0)], Some(0)) && !states[0].flushed
    requires states[0].heartbeat == HeartbeatState(0, 0, true, false, 0, 0, 0, 0)
    requires events[0] == Occurrence(Blur(None, true), 10000) && events[1].event == Focus
    requires events[2] == Occurrence(TrackGoal("buy", None, map[]), 60000)
    ensures var sent := states[3].log.actions;
            && |sent| == 2 && sent[0].Pageview? && sent[0].path == "/pricing" && sent[0].duration == 10000
            && sent[1].Goal? && sent[1].path == "/"
    ensures |states[3].payloads| > 0 && states[3].payloads[|states[3].payloads| - 1].actions == states[3].log.actions
  {
    assert LeavesPage(states[0], events[0].event);
    assert FocusMs(states[0], 10000) == 10000;
    FocusEndsWhenLeft(CONFIG, states, events, 0, 3, 0);
    LogIsCalls(CONFIG, states, events, 0, 2);
    assert Calls(events[0..2]) == [];
    RunKeepsInv(CONFIG, states, events, 2);
    PageIsCurrentIff(CONFIG, states, events, 0, 2);
    GoalGoesTo(CONFIG, states[2], events[2]);
    SendsIff(CONFIG, states[2], events[2].event, events[2].now);
    LogIsCalls(CONFIG, states, events, 0, 3);
    assert Ids(states[3].log.actions)[0] == Ids(states[0].log.actions)[0];
    assert states[3] == Step(CONFIG, states[2], events[2].event, events[2].now);
  }
}
