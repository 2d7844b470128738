/** The browser SDK as a machine: every handler is one atomic step at one reading of the clock. */
module Sdk {
  import opened EventTable
  import opened SessionPayload
  import opened SessionState
  import opened Heartbeat

  datatype Session = Session(workspaceId: string, sessionId: string, createdAt: int, attributes: map<string, string>)

  /** The snapshot kept in sessionStorage. */
  datatype Saved = Saved(sessionId: string, log: Log)

  /** What really happened since the page timer was last reset: how long the heartbeat was active, and how
      much of that was thrown away by resuming a heartbeat that was already active. */
  datatype Ledger = Ledger(resetAt: int, activeMs: int, discardedMs: int)

  /** `payloads`, `ledger` and `clock` record the run: every payload built, the true active time, and the
      time of the last step. `synced` is how many leading actions of the log storage is known to have. */
  datatype Client = Client(
    session: Session,
    log: Log,
    heartbeat: HeartbeatState,
    isPaused: bool,
    flushed: bool,
    saved: Option<Saved>,
    payloads: seq<Payload>,
    ledger: Ledger,
    clock: int,
    synced: nat)

  /** `Elsewhere` is a write to sessionStorage by another document of the tab. `scroll` is the scroll tracker's reading,
      `stored` says whether writing sessionStorage succeeded. */
  datatype ClientEvent =
    | Focus
    | VisibilityVisible
    | LifecycleResume
    | Blur(scroll: Option<int>, stored: bool)
    | VisibilityHidden(scroll: Option<int>, stored: bool)
    | Freeze(scroll: Option<int>, stored: bool)
    | Unload(scroll: Option<int>, stored: bool)
    | PageShow(persisted: bool)
    | Navigation(path: string, scroll: Option<int>, stored: bool)
    | TrackPageView(path: string, scroll: Option<int>, stored: bool)
    | TrackGoal(name: string, value: Option<real>, properties: map<string, string>)
    | Ping(visible: bool, scroll: Option<int>)
    | SendPayload
    | Persist(stored: bool)
    | Pause
    | Resume
    | Reset(session: Session, path: string)
    | Elsewhere(other: Saved)

  // ---------------------------------------------------------------- steps on values

  function FocusMs(c: Client, now: int): int {
    PageActiveMs(c.heartbeat, now)
  }

  /** Time passes; an active heartbeat earns it. */
  function Tick(c: Client, now: int): Client {
    c.(clock := now,
       ledger := c.ledger.(activeMs := c.ledger.activeMs + if c.heartbeat.isActive then now - c.clock else 0))
  }

  function Scrolled(log: Log, scroll: Option<int>): Log {
    if scroll.Some? then UpdateScroll(log, scroll.value) else log
  }

  function SavePoint(c: Client, stored: bool): Client {
    if stored then c.(saved := Some(Saved(c.session.sessionId, c.log)), synced := |c.log.actions|) else c
  }

  function Build(c: Client, now: int): Client {
    var log := Touch(c.log, FocusMs(c, now), now);
    c.(log := log,
       payloads := c.payloads + [Payload(c.session.workspaceId, c.session.sessionId, log.actions,
                                         c.session.attributes, c.session.createdAt, now)])
  }

  function ResumeActivity(cfg: HeartbeatConfig, c: Client, now: int): Client {
    if c.heartbeat.maxDurationReached then c
    else c.(heartbeat := ResumeHeartbeat(cfg, c.heartbeat, now),
            ledger := if c.heartbeat.isActive
                      then c.ledger.(discardedMs := c.ledger.discardedMs + (now - c.heartbeat.pageStartTime))
                      else c.ledger)
  }

  function Activate(cfg: HeartbeatConfig, c: Client, now: int): Client {
    var awake := c.(flushed := false);
    if !c.isPaused && !c.heartbeat.maxDurationReached then ResumeActivity(cfg, awake, now) else awake
  }

  function StopActivity(c: Client, now: int): Client {
    c.(heartbeat := StopHeartbeat(c.heartbeat, true, now))
  }

  function RestartActivity(cfg: HeartbeatConfig, c: Client, now: int): Client {
    c.(heartbeat := StartHeartbeat(cfg, ResetHeartbeatState(now), now), ledger := Ledger(now, 0, 0))
  }

  function FlushOnce(c: Client, scroll: Option<int>, stored: bool, now: int): Client {
    if c.flushed then c
    else
      var left := c.(flushed := true, log := FinalizeForUnload(Scrolled(c.log, scroll), FocusMs(c, now), now));
      SavePoint(Build(left, now), stored)
  }

  function Restore(c: Client): Client {
    if c.saved.None? then c
    else if c.saved.value.sessionId != c.session.sessionId then c.(saved := None)
    else c.(log := c.saved.value.log, synced := |c.saved.value.log.actions|)
  }

  function EnterPage(c: Client, path: string, scroll: Option<int>, now: int): Client {
    c.(log := AddPageview(Scrolled(c.log, scroll), path, FocusMs(c, now), now),
       heartbeat := ResetPageActiveTime(c.heartbeat, now),
       ledger := Ledger(now, 0, 0))
  }

  function PingStep(cfg: HeartbeatConfig, c: Client, scroll: Option<int>, now: int): Client {
    var h := c.heartbeat.(currentTierIndex := CurrentTier(cfg.tiers, TotalActiveMs(c.heartbeat, now)));
    var sent := Build(c.(heartbeat := h, log := Scrolled(c.log, scroll)), now);
    sent.(heartbeat := ScheduleNext(cfg, h.(lastPingTime := now), now))
  }

  function NewSession(c: Client, session: Session, path: string, now: int): Client {
    c.(session := session, log := AddPageview(EmptyLog, path, FocusMs(c, now), now), synced := 0)
  }

  function Handle(cfg: HeartbeatConfig, c: Client, event: ClientEvent, now: int): Client {
    match event
    case Focus => Activate(cfg, c, now)
    case VisibilityVisible => Activate(cfg, c, now)
    case LifecycleResume => Activate(cfg, c, now)
    case Blur(scroll, stored) => FlushOnce(StopActivity(c, now), scroll, stored, now)
    case VisibilityHidden(scroll, stored) => FlushOnce(StopActivity(c, now), scroll, stored, now)
    case Freeze(scroll, stored) => FlushOnce(StopActivity(c, now), scroll, stored, now)
    case Unload(scroll, stored) => FlushOnce(c, scroll, stored, now)
    case PageShow(persisted) => if persisted then Restore(Activate(cfg, c, now)) else c
    case Navigation(path, scroll, stored) =>
      var entered := EnterPage(c, path, scroll, now);
      SavePoint(if cfg.resetOnNavigation then RestartActivity(cfg, entered, now) else entered, stored)
    case TrackPageView(path, scroll, stored) => SavePoint(EnterPage(c, path, scroll, now), stored)
    case TrackGoal(name, value, properties) => Build(c.(log := AddGoal(c.log, name, value, properties, now)), now)
    case Ping(visible, scroll) =>
      if !c.isPaused && c.heartbeat.isActive && visible then PingStep(cfg, c, scroll, now) else c
    case SendPayload => Build(c, now)
    case Persist(stored) => SavePoint(c, stored)
    case Pause => StopActivity(c.(isPaused := true), now)
    case Resume => RestartActivity(cfg, c.(isPaused := false), now)
    case Reset(session, path) =>
      Build(RestartActivity(cfg, NewSession(c, session, path, now), now), now)
    case Elsewhere(other) =>
      c.(saved := Some(other), synced := if other.sessionId == c.session.sessionId then c.synced else 0)
  }

  function Step(cfg: HeartbeatConfig, c: Client, event: ClientEvent, now: int): Client {
    Handle(cfg, Tick(c, now), event, now)
  }

  function StartLog(session: Session, saved: Option<Saved>): Log {
    if saved.Some? && saved.value.sessionId == session.sessionId then saved.value.log else EmptyLog
  }

  /** The client before its first payload. */
  function Begun(cfg: HeartbeatConfig, session: Session, saved: Option<Saved>, path: string, now: int): Client {
    var kept := if saved.Some? && saved.value.sessionId != session.sessionId then None else saved;
    var log := AddPageview(StartLog(session, saved), path, PageActiveMs(INITIAL_STATE, now), now);
    var h := StartHeartbeat(cfg, INITIAL_STATE.(pageStartTime := now, activeStartTime := now), now);
    Client(session, log, h, false, false, kept, [], Ledger(now, 0, 0), now, |StartLog(session, saved).actions|)
  }

  function Start(cfg: HeartbeatConfig, session: Session, saved: Option<Saved>, path: string, now: int): Client {
    Build(Begun(cfg, session, saved, path, now), now)
  }

  // ---------------------------------------------------------------- runs

  ghost predicate IsFor(saved: Option<Saved>, sessionId: string) {
    saved.Some? && saved.value.sessionId == sessionId
  }

  ghost predicate SavedForSession(c: Client) {
    IsFor(c.saved, c.session.sessionId)
  }

  /** What an earlier page load of this tab can have left behind for the session. */
  ghost predicate GoodStart(session: Session, saved: Option<Saved>) {
    IsFor(saved, session.sessionId) ==> Ordered(saved.value.log)
  }

  ghost predicate SessionIsNew(c: Client, sessionId: string) {
    && sessionId != c.session.sessionId
    && !IsFor(c.saved, sessionId)
    && forall p | p in c.payloads :: p.sessionId != sessionId
  }

  /** Another document of the session begins with what storage has, and stores that or more. */
  ghost predicate GoodElsewhere(c: Client, stored: Saved) {
    stored.sessionId == c.session.sessionId ==>
      Ordered(stored.log) && (SavedForSession(c) ==> Ids(c.saved.value.log.actions) <= Ids(stored.log.actions))
  }

  /** The clock never goes back, and a reset takes a session identifier that was not used before. */
  ghost predicate CanHappen(c: Client, event: ClientEvent, now: int) {
    && c.clock <= now
    && (event.Reset? ==> SessionIsNew(c, event.session.sessionId))
    && (event.Elsewhere? ==> GoodElsewhere(c, event.other))
  }

  datatype Occurrence = Occurrence(event: ClientEvent, now: int)

  ghost predicate IsStart(cfg: HeartbeatConfig, c: Client) {
    exists session, saved, path, now :: GoodStart(session, saved) && c == Start(cfg, session, saved, path, now)
  }

  ghost predicate IsRun(cfg: HeartbeatConfig, states: seq<Client>, events: seq<Occurrence>) {
    && |states| == |events| + 1
    && IsStart(cfg, states[0])
    && forall i | 0 <= i < |events| ::
         CanHappen(states[i], events[i].event, events[i].now)
         && states[i + 1] == Step(cfg, states[i], events[i].event, events[i].now)
  }

  // ---------------------------------------------------------------- invariant

  ghost predicate GoodActions(actions: seq<Action>) {
    1 <= |actions| <= MAX_ACTIONS && Numbered(Ids(actions))
  }

  /** Page focus time read now, plus what was discarded, is the true active time since the last reset. */
  ghost predicate LedgerBalances(c: Client) {
    && c.ledger.resetAt <= c.clock
    && 0 <= c.ledger.discardedMs
    && 0 <= FocusMs(c, c.clock)
    && FocusMs(c, c.clock) + c.ledger.discardedMs == c.ledger.activeMs <= c.clock - c.ledger.resetAt
    && (c.heartbeat.isActive ==> c.ledger.resetAt <= c.heartbeat.pageStartTime <= c.clock)
    && 0 <= c.heartbeat.pageActiveMs
  }

  /** Storage has the first `synced` actions of the log, whatever other documents added to it. */
  ghost predicate StorageKeepsUp(c: Client) {
    if SavedForSession(c) then
      var stored := c.saved.value.log;
      && Ordered(stored)
      && c.synced <= |c.log.actions| && c.synced <= |stored.actions|
      && Ids(c.log.actions)[..c.synced] == Ids(stored.actions)[..c.synced]
    else c.synced == 0
  }

  ghost predicate ClientInv(c: Client) {
    && LedgerBalances(c)
    && Ordered(c.log)
    && StorageKeepsUp(c)
    && forall p | p in c.payloads :: GoodActions(p.actions)
  }

  lemma LongerLogKeepsStorage(c: Client, log: Log)
    requires StorageKeepsUp(c) && Ids(c.log.actions) <= Ids(log.actions)
    ensures StorageKeepsUp(c.(log := log))
  {
    if SavedForSession(c) {
      assert Ids(log.actions)[..c.synced] == Ids(c.log.actions)[..c.synced];
    }
  }

  lemma BuildKeepsInv(c: Client)
    requires ClientInv(c)
    ensures ClientInv(Build(c, c.clock))
  {
    TouchKeepsOrdered(c.log, FocusMs(c, c.clock), c.clock);
    TouchKeepsIds(c.log, FocusMs(c, c.clock), c.clock);
    LongerLogKeepsStorage(c, Touch(c.log, FocusMs(c, c.clock), c.clock));
  }

  lemma SaveKeepsInv(c: Client, stored: bool)
    requires ClientInv(c)
    ensures ClientInv(SavePoint(c, stored))
  {
  }

  lemma ScrollKeepsInv(c: Client, scroll: Option<int>)
    requires ClientInv(c)
    ensures ClientInv(c.(log := Scrolled(c.log, scroll)))
  {
    if scroll.Some? {
      ScrollKeepsLog(c.log, scroll.value);
      ScrollKeepsIds(c.log, scroll.value);
      LongerLogKeepsStorage(c, Scrolled(c.log, scroll));
    }
  }

  lemma ResumeKeepsInv(cfg: HeartbeatConfig, c: Client)
    requires ClientInv(c)
    ensures ClientInv(ResumeActivity(cfg, c, c.clock))
  {
  }

  lemma StopKeepsInv(c: Client)
    requires ClientInv(c)
    ensures ClientInv(StopActivity(c, c.clock))
  {
  }

  lemma RestartKeepsInv(cfg: HeartbeatConfig, c: Client)
    requires ClientInv(c)
    ensures ClientInv(RestartActivity(cfg, c, c.clock))
  {
  }

  lemma FlushKeepsInv(c: Client, scroll: Option<int>, stored: bool)
    requires ClientInv(c)
    ensures ClientInv(FlushOnce(c, scroll, stored, c.clock))
  {
    if !c.flushed {
      ScrollKeepsInv(c, scroll);
      var log := Scrolled(c.log, scroll);
      UnloadKeepsLog(log, FocusMs(c, c.clock), c.clock);
      TouchKeepsIds(log, FocusMs(c, c.clock), c.clock);
      var final := FinalizeForUnload(log, FocusMs(c, c.clock), c.clock);
      LongerLogKeepsStorage(c.(log := log), final);
      var left := c.(flushed := true, log := final);
      BuildKeepsInv(left);
      SaveKeepsInv(Build(left, c.clock), stored);
    }
  }

  lemma EnterKeepsInv(c: Client, path: string, scroll: Option<int>)
    requires ClientInv(c)
    ensures ClientInv(EnterPage(c, path, scroll, c.clock))
  {
    ScrollKeepsInv(c, scroll);
    var log := Scrolled(c.log, scroll);
    PageviewKeepsOrdered(log, path, FocusMs(c, c.clock), c.clock);
    LongerLogKeepsStorage(c.(log := log), AddPageview(log, path, FocusMs(c, c.clock), c.clock));
  }

  lemma PingKeepsInv(cfg: HeartbeatConfig, c: Client, scroll: Option<int>)
    requires ClientInv(c)
    ensures ClientInv(PingStep(cfg, c, scroll, c.clock))
  {
    ScrollKeepsInv(c, scroll);
    var h := c.heartbeat.(currentTierIndex := CurrentTier(cfg.tiers, TotalActiveMs(c.heartbeat, c.clock)));
    BuildKeepsInv(c.(heartbeat := h, log := Scrolled(c.log, scroll)));
  }

  lemma TickKeepsInv(c: Client, now: int)
    requires ClientInv(c) && c.clock <= now
    ensures ClientInv(Tick(c, now))
  {
  }

  lemma LeaveKeepsInv(c: Client, scroll: Option<int>, stored: bool)
    requires ClientInv(c)
    ensures ClientInv(FlushOnce(StopActivity(c, c.clock), scroll, stored, c.clock))
  {
    StopKeepsInv(c);
    FlushKeepsInv(StopActivity(c, c.clock), scroll, stored);
  }

  lemma ActivateKeepsInv(cfg: HeartbeatConfig, c: Client)
    requires ClientInv(c)
    ensures ClientInv(Activate(cfg, c, c.clock)) && Activate(cfg, c, c.clock).clock == c.clock
  {
    ResumeKeepsInv(cfg, c.(flushed := false));
  }

  lemma RestoreKeepsInv(c: Client)
    requires ClientInv(c)
    ensures ClientInv(Restore(c))
  {
  }

  lemma NavigationKeepsInv(cfg: HeartbeatConfig, c: Client, path: string, scroll: Option<int>, stored: bool)
    requires ClientInv(c)
    ensures ClientInv(SavePoint(EnterPage(c, path, scroll, c.clock), stored))
    ensures ClientInv(SavePoint(RestartActivity(cfg, EnterPage(c, path, scroll, c.clock), c.clock), stored))
  {
    EnterKeepsInv(c, path, scroll);
    RestartKeepsInv(cfg, EnterPage(c, path, scroll, c.clock));
    SaveKeepsInv(EnterPage(c, path, scroll, c.clock), stored);
    SaveKeepsInv(RestartActivity(cfg, EnterPage(c, path, scroll, c.clock), c.clock), stored);
  }

  lemma GoalKeepsInv(c: Client, name: string, value: Option<real>, properties: map<string, string>)
    requires ClientInv(c)
    ensures ClientInv(Build(c.(log := AddGoal(c.log, name, value, properties, c.clock)), c.clock))
  {
    GoalKeepsOrdered(c.log, name, value, properties, c.clock);
    LongerLogKeepsStorage(c, AddGoal(c.log, name, value, properties, c.clock));
    BuildKeepsInv(c.(log := AddGoal(c.log, name, value, properties, c.clock)));
  }

  lemma ResetKeepsInv(cfg: HeartbeatConfig, c: Client, session: Session, path: string)
    requires ClientInv(c) && SessionIsNew(c, session.sessionId)
    ensures ClientInv(Handle(cfg, c, Reset(session, path), c.clock))
  {
    FirstPageview(path, FocusMs(c, c.clock), c.clock);
    var started := NewSession(c, session, path, c.clock);
    assert ClientInv(started);
    RestartKeepsInv(cfg, started);
    BuildKeepsInv(RestartActivity(cfg, started, c.clock));
  }

  lemma ElsewhereKeepsInv(cfg: HeartbeatConfig, c: Client, stored: Saved)
    requires ClientInv(c) && GoodElsewhere(c, stored)
    ensures ClientInv(Handle(cfg, c, Elsewhere(stored), c.clock))
  {
    if stored.sessionId == c.session.sessionId && SavedForSession(c) {
      assert Ids(stored.log.actions)[..c.synced] == Ids(c.saved.value.log.actions)[..c.synced];
    }
  }

  /** Events about the window's visibility, which start or stop the heartbeat. */
  predicate IsActivityEvent(event: ClientEvent) {
    event.Focus? || event.VisibilityVisible? || event.LifecycleResume? || event.PageShow?
    || event.Blur? || event.VisibilityHidden? || event.Freeze? || event.Unload?
  }

  lemma ActivityKeepsInv(cfg: HeartbeatConfig, c: Client, event: ClientEvent)
    requires ClientInv(c) && IsActivityEvent(event)
    ensures ClientInv(Handle(cfg, c, event, c.clock))
  {
    if event.Focus? || event.VisibilityVisible? || event.LifecycleResume? {
      ActivateKeepsInv(cfg, c);
    } else if event.PageShow? {
      ActivateKeepsInv(cfg, c);
      RestoreKeepsInv(Activate(cfg, c, c.clock));
    } else if event.Unload? {
      FlushKeepsInv(c, event.scroll, event.stored);
    } else {
      LeaveKeepsInv(c, event.scroll, event.stored);
    }
  }

  lemma HandleKeepsInv(cfg: HeartbeatConfig, c: Client, event: ClientEvent)
    requires ClientInv(c) && CanHappen(c, event, c.clock)
    ensures ClientInv(Handle(cfg, c, event, c.clock))
  {
    if IsActivityEvent(event) {
      ActivityKeepsInv(cfg, c, event);
    } else {
      RequestKeepsInv(cfg, c, event);
    }
  }

  lemma RequestKeepsInv(cfg: HeartbeatConfig, c: Client, event: ClientEvent)
    requires ClientInv(c) && !IsActivityEvent(event) && CanHappen(c, event, c.clock)
    ensures ClientInv(Handle(cfg, c, event, c.clock))
  {
    match event {
      case Navigation(path, scroll, stored) => NavigationKeepsInv(cfg, c, path, scroll, stored);
      case TrackPageView(path, scroll, stored) => NavigationKeepsInv(cfg, c, path, scroll, stored);
      case TrackGoal(name, value, properties) => GoalKeepsInv(c, name, value, properties);
      case Ping(visible, scroll) => PingKeepsInv(cfg, c, scroll);
      case SendPayload => BuildKeepsInv(c);
      case Persist(stored) => SaveKeepsInv(c, stored);
      case Pause => StopKeepsInv(c.(isPaused := true));
      case Resume => RestartKeepsInv(cfg, c.(isPaused := false));
      case Reset(session, path) => ResetKeepsInv(cfg, c, session, path);
      case Elsewhere(other) => ElsewhereKeepsInv(cfg, c, other);
    }
  }

  lemma BegunHasInv(cfg: HeartbeatConfig, session: Session, saved: Option<Saved>, path: string, now: int)
    requires GoodStart(session, saved)
    ensures ClientInv(Begun(cfg, session, saved, path, now))
  {
    if IsFor(saved, session.sessionId) {
      PageviewKeepsOrdered(saved.value.log, path, 0, now);
      var log := AddPageview(saved.value.log, path, 0, now);
      var n := |saved.value.log.actions|;
      assert Ids(log.actions)[..n] == Ids(saved.value.log.actions);
    } else {
      FirstPageview(path, 0, now);
    }
  }

  lemma StartHasInv(cfg: HeartbeatConfig, session: Session, saved: Option<Saved>, path: string, now: int)
    requires GoodStart(session, saved)
    ensures ClientInv(Start(cfg, session, saved, path, now))
  {
    BegunHasInv(cfg, session, saved, path, now);
    BuildKeepsInv(Begun(cfg, session, saved, path, now));
  }

  /** The invariant holds in every state of every run. */
  lemma {:induction false} RunKeepsInv(cfg: HeartbeatConfig, states: seq<Client>, events: seq<Occurrence>, n: nat)
    requires IsRun(cfg, states, events) && n < |states|
    ensures ClientInv(states[n])
  {
    if n == 0 {
      var session, saved, path, now :| GoodStart(session, saved) && states[0] == Start(cfg, session, saved, path, now);
      StartHasInv(cfg, session, saved, path, now);
    } else {
      RunKeepsInv(cfg, states, events, n - 1);
      var e := events[n - 1];
      TickKeepsInv(states[n - 1], e.now);
      HandleKeepsInv(cfg, Tick(states[n - 1], e.now), e.event);
    }
  }

  /** What a document leaves in storage is a good start for the next page load of its session. */
  lemma NextLoadStartsWell(cfg: HeartbeatConfig, states: seq<Client>, events: seq<Occurrence>, n: nat)
    requires IsRun(cfg, states, events) && n < |states|
    ensures GoodStart(states[n].session, states[n].saved)
  {
    RunKeepsInv(cfg, states, events, n);
  }

  // ---------------------------------------------------------------- results over whole runs

  /** Action log: in every payload of every run, whatever other documents store, pageviews are numbered 1, 2, 3, ...
      without a gap, goals point to a page already seen, and there are at most 1000 actions. */
  lemma PayloadActionLog(cfg: HeartbeatConfig, states: seq<Client>, events: seq<Occurrence>, n: nat, p: Payload)
    requires IsRun(cfg, states, events) && n < |states| && p in states[n].payloads
    ensures 1 <= |p.actions| <= MAX_ACTIONS && Numbered(Ids(p.actions)) && p.actions[0].Pageview?
  {
    RunKeepsInv(cfg, states, events, n);
    FirstActionIsPageview(Ids(p.actions));
  }

  /** Events that start the page timer again. */
  predicate RestartsPageTimer(event: ClientEvent) {
    event.Navigation? || event.TrackPageView? || event.Resume? || event.Reset?
  }

  predicate IsActivation(event: ClientEvent) {
    event.Focus? || event.VisibilityVisible? || event.LifecycleResume? || event == PageShow(true)
  }

  /** The heartbeat is resumed although it is active, later than it was last started or resumed. */
  predicate Discards(c: Client, event: ClientEvent, now: int) {
    && IsActivation(event) && !c.isPaused && !c.heartbeat.maxDurationReached
    && c.heartbeat.isActive && c.heartbeat.pageStartTime < now
  }

  lemma ResumeDiscards(cfg: HeartbeatConfig, c: Client, now: int)
    requires ClientInv(c) && c.clock == now
    ensures Activate(cfg, c, now).ledger.discardedMs ==
            c.ledger.discardedMs + if Discards(c, Focus, now) then now - c.heartbeat.pageStartTime else 0
  {
  }

  lemma LeavingDiscardsNothing(cfg: HeartbeatConfig, c: Client, event: ClientEvent, now: int)
    requires IsActivityEvent(event) && !IsActivation(event)
    ensures Step(cfg, c, event, now).ledger.discardedMs == c.ledger.discardedMs
  {
  }

  lemma RequestDiscards(cfg: HeartbeatConfig, c: Client, event: ClientEvent, now: int)
    requires !IsActivityEvent(event)
    ensures Step(cfg, c, event, now).ledger.discardedMs == if RestartsPageTimer(event) then 0 else c.ledger.discardedMs
  {
  }

  lemma DiscardStep(cfg: HeartbeatConfig, c: Client, event: ClientEvent, now: int)
    requires ClientInv(c) && c.clock <= now
    ensures var after := Step(cfg, c, event, now).ledger.discardedMs;
            if RestartsPageTimer(event) then after == 0
            else after == c.ledger.discardedMs + if Discards(c, event, now) then now - c.heartbeat.pageStartTime else 0
  {
    if IsActivation(event) {
      TickKeepsInv(c, now);
      ResumeDiscards(cfg, Tick(c, now), now);
    } else if IsActivityEvent(event) {
      LeavingDiscardsNothing(cfg, c, event, now);
    } else {
      RequestDiscards(cfg, c, event, now);
    }
  }

  lemma {:induction false} NothingDiscarded(cfg: HeartbeatConfig, states: seq<Client>, events: seq<Occurrence>, m: nat, n: nat)
    requires IsRun(cfg, states, events) && m <= n < |states|
    requires m == 0 || RestartsPageTimer(events[m - 1].event)
    requires forall i | m <= i < n :: !RestartsPageTimer(events[i].event)
    ensures states[n].ledger.discardedMs == 0 <==> forall i | m <= i < n :: !Discards(states[i], events[i].event, events[i].now)
    decreases n - m
  {
    if n == m {
      if m == 0 {
        var session, saved, path, now :| GoodStart(session, saved) && states[0] == Start(cfg, session, saved, path, now);
      } else {
        RunKeepsInv(cfg, states, events, m - 1);
        DiscardStep(cfg, states[m - 1], events[m - 1].event, events[m - 1].now);
      }
    } else {
      NothingDiscarded(cfg, states, events, m, n - 1);
      RunKeepsInv(cfg, states, events, n - 1);
      DiscardStep(cfg, states[n - 1], events[n - 1].event, events[n - 1].now);
    }
  }

  /** Focus ledger: page focus time plus the time discarded by resuming an already active heartbeat is the true
      active time since the page timer was restarted (by step m); so focus time is exact if and only if no event since
      then resumed an active heartbeat. */
  lemma FocusLedger(cfg: HeartbeatConfig, states: seq<Client>, events: seq<Occurrence>, m: nat, n: nat, now: int)
    requires IsRun(cfg, states, events) && m <= n < |states| && states[n].clock <= now
    requires m == 0 || RestartsPageTimer(events[m - 1].event)
    requires forall i | m <= i < n :: !RestartsPageTimer(events[i].event)
    ensures FocusMs(states[n], now) + states[n].ledger.discardedMs == Tick(states[n], now).ledger.activeMs
    ensures FocusMs(states[n], now) == Tick(states[n], now).ledger.activeMs <==>
            forall i | m <= i < n :: !Discards(states[i], events[i].event, events[i].now)
  {
    RunKeepsInv(cfg, states, events, n);
    NothingDiscarded(cfg, states, events, m, n);
  }

  // ---------------------------------------------------------------- payloads are never taken back

  lemma PayloadsOnlyGrow(cfg: HeartbeatConfig, c: Client, event: ClientEvent, now: int)
    ensures c.payloads <= Step(cfg, c, event, now).payloads
  {
  }

  ghost predicate PayloadsGrow(states: seq<Client>) {
    forall i | 0 <= i < |states| - 1 :: states[i].payloads <= states[i + 1].payloads
  }

  lemma RunPayloadsGrow(cfg: HeartbeatConfig, states: seq<Client>, events: seq<Occurrence>)
    requires IsRun(cfg, states, events)
    ensures PayloadsGrow(states)
  {
    forall i | 0 <= i < |events| ensures states[i].payloads <= states[i + 1].payloads {
      PayloadsOnlyGrow(cfg, states[i], events[i].event, events[i].now);
    }
  }

  lemma {:induction false} PayloadsStay(states: seq<Client>, m: nat, n: nat)
    requires PayloadsGrow(states) && m <= n < |states|
    ensures states[m].payloads <= states[n].payloads
    decreases n - m
  {
    if m < n {
      PayloadsStay(states, m, n - 1);
    }
  }
}
