/** Focus time: when it never over-counts, and the one event that can make it. */
module SdkFocus {
  import opened EventTable
  import opened SessionPayload
  import opened SessionState
  import opened Heartbeat
  import opened Sdk

  // ---------------------------------------------------------------- invariant

  ghost predicate SoundLog(log: Log, now: int) {
    LogInv(log) && ExitedBy(log.actions, now)
  }

  /** The log is sound and the focus time read now fits the current page; what is stored is sound, and so is every
      payload. */
  ghost predicate FocusInv(c: Client) {
    && ClientInv(c)
    && SoundLog(c.log, c.clock)
    && Fits(c.log, FocusMs(c, c.clock), c.clock)
    && (SavedForSession(c) ==> SoundLog(c.saved.value.log, c.clock))
    && forall p | p in c.payloads :: Spaced(p.actions)
  }

  lemma TickKeepsFocus(c: Client, now: int)
    requires FocusInv(c) && c.clock <= now
    ensures FocusInv(Tick(c, now))
  {
    TickKeepsInv(c, now);
  }

  lemma BuildKeepsFocus(c: Client)
    requires FocusInv(c)
    ensures FocusInv(Build(c, c.clock))
  {
    BuildKeepsInv(c);
    TouchSoundIffFits(c.log, FocusMs(c, c.clock), c.clock);
  }

  lemma SaveKeepsFocus(c: Client, stored: bool)
    requires FocusInv(c)
    ensures FocusInv(SavePoint(c, stored))
  {
    SaveKeepsInv(c, stored);
  }

  lemma ScrollKeepsFocus(c: Client, scroll: Option<int>)
    requires FocusInv(c)
    ensures FocusInv(c.(log := Scrolled(c.log, scroll)))
  {
    ScrollKeepsInv(c, scroll);
    if scroll.Some? {
      ScrollKeepsLog(c.log, scroll.value);
    }
  }

  lemma ResumeKeepsFocus(cfg: HeartbeatConfig, c: Client)
    requires FocusInv(c)
    ensures FocusInv(ResumeActivity(cfg, c, c.clock))
  {
    ResumeKeepsInv(cfg, c);
    assert 0 <= FocusMs(ResumeActivity(cfg, c, c.clock), c.clock) <= FocusMs(c, c.clock);
  }

  lemma StopKeepsFocus(c: Client)
    requires FocusInv(c)
    ensures FocusInv(StopActivity(c, c.clock))
  {
    StopKeepsInv(c);
    assert FocusMs(StopActivity(c, c.clock), c.clock) == FocusMs(c, c.clock);
  }

  lemma ZeroFits(log: Log, now: int)
    requires SoundLog(log, now)
    ensures Fits(log, 0, now)
  {
  }

  lemma RestartKeepsFocus(cfg: HeartbeatConfig, c: Client)
    requires FocusInv(c)
    ensures FocusInv(RestartActivity(cfg, c, c.clock))
  {
    RestartKeepsInv(cfg, c);
    ZeroFits(c.log, c.clock);
    assert FocusMs(RestartActivity(cfg, c, c.clock), c.clock) == 0;
  }

  lemma FlushKeepsFocus(c: Client, scroll: Option<int>, stored: bool)
    requires FocusInv(c)
    ensures FocusInv(FlushOnce(c, scroll, stored, c.clock))
  {
    FlushKeepsInv(c, scroll, stored);
    if !c.flushed {
      ScrollKeepsFocus(c, scroll);
      var log := Scrolled(c.log, scroll);
      UnloadKeepsLog(log, FocusMs(c, c.clock), c.clock);
      var final := FinalizeForUnload(log, FocusMs(c, c.clock), c.clock);
      assert Touch(final, FocusMs(c, c.clock), c.clock) == final;
      assert FlushOnce(c, scroll, stored, c.clock).log == final;
    }
  }

  lemma EnterKeepsFocus(c: Client, path: string, scroll: Option<int>)
    requires FocusInv(c)
    ensures FocusInv(EnterPage(c, path, scroll, c.clock))
  {
    EnterKeepsInv(c, path, scroll);
    ScrollKeepsFocus(c, scroll);
    PageviewKeepsLog(Scrolled(c.log, scroll), path, FocusMs(c, c.clock), c.clock);
    assert FocusMs(EnterPage(c, path, scroll, c.clock), c.clock) == 0;
  }

  lemma PingKeepsFocus(cfg: HeartbeatConfig, c: Client, scroll: Option<int>)
    requires FocusInv(c)
    ensures FocusInv(PingStep(cfg, c, scroll, c.clock))
  {
    PingKeepsInv(cfg, c, scroll);
    ScrollKeepsFocus(c, scroll);
    var h := c.heartbeat.(currentTierIndex := CurrentTier(cfg.tiers, TotalActiveMs(c.heartbeat, c.clock)));
    var sent := c.(heartbeat := h, log := Scrolled(c.log, scroll));
    assert FocusInv(sent);
    BuildKeepsFocus(sent);
    ScheduleKeepsPageTime(cfg, h.(lastPingTime := c.clock), c.clock);
  }

  lemma GoalKeepsFocus(c: Client, name: string, value: Option<real>, properties: map<string, string>)
    requires FocusInv(c)
    ensures FocusInv(Build(c.(log := AddGoal(c.log, name, value, properties, c.clock)), c.clock))
  {
    GoalKeepsLog(c.log, name, value, properties, c.clock, FocusMs(c, c.clock));
    GoalKeepsOrdered(c.log, name, value, properties, c.clock);
    LongerLogKeepsStorage(c, AddGoal(c.log, name, value, properties, c.clock));
    BuildKeepsFocus(c.(log := AddGoal(c.log, name, value, properties, c.clock)));
  }

  lemma ResetKeepsFocus(cfg: HeartbeatConfig, c: Client, session: Session, path: string)
    requires FocusInv(c) && SessionIsNew(c, session.sessionId)
    ensures FocusInv(Handle(cfg, c, Reset(session, path), c.clock))
  {
    FirstPageview(path, FocusMs(c, c.clock), c.clock);
    var restarted := RestartActivity(cfg, NewSession(c, session, path, c.clock), c.clock);
    assert FocusMs(restarted, c.clock) == 0;
    assert ClientInv(NewSession(c, session, path, c.clock));
    RestartKeepsInv(cfg, NewSession(c, session, path, c.clock));
    BuildKeepsFocus(restarted);
  }

  // ---------------------------------------------------------------- restoring

  /** After waking up, the focus time of this document fits the page that the stored log has as current, if any. A
      document can compare the two before it restores. */
  ghost predicate RestoredPageFits(cfg: HeartbeatConfig, c: Client, now: int) {
    SavedForSession(c) ==> Fits(c.saved.value.log, FocusMs(Activate(cfg, c, now), now), now)
  }

  lemma ActivateKeepsFocus(cfg: HeartbeatConfig, c: Client)
    requires FocusInv(c)
    ensures FocusInv(Activate(cfg, c, c.clock))
    ensures Activate(cfg, c, c.clock).clock == c.clock && Activate(cfg, c, c.clock).saved == c.saved
    ensures Activate(cfg, c, c.clock).session == c.session && Activate(cfg, c, c.clock).payloads == c.payloads
  {
    ResumeKeepsFocus(cfg, c.(flushed := false));
  }

  /** The condition is exact: restoring from storage keeps focus time believable if and only if it fits. */
  lemma RestoreKeepsFocusIff(cfg: HeartbeatConfig, c: Client)
    requires FocusInv(c)
    ensures FocusInv(Handle(cfg, c, PageShow(true), c.clock)) <==> RestoredPageFits(cfg, c, c.clock)
  {
    ActivateKeepsFocus(cfg, c);
    RestoreKeepsInv(Activate(cfg, c, c.clock));
  }

  /** A stored log without a current page always fits, and so does one whose current page was entered before the
      page timer was last restarted. */
  lemma OldPageFits(cfg: HeartbeatConfig, c: Client)
    requires FocusInv(c)
    requires SavedForSession(c) && OnPage(c.saved.value.log) ==>
               c.saved.value.log.actions[c.saved.value.log.current.value].enteredAt <= c.ledger.resetAt
    ensures RestoredPageFits(cfg, c, c.clock)
  {
    ActivateKeepsFocus(cfg, c);
  }

  // ---------------------------------------------------------------- runs

  /** Other documents store sound logs. */
  ghost predicate SoundElsewhere(c: Client, event: ClientEvent, now: int) {
    event.Elsewhere? && event.other.sessionId == c.session.sessionId ==> SoundLog(event.other.log, now)
  }

  ghost predicate FitsIfRestored(cfg: HeartbeatConfig, c: Client, event: ClientEvent, now: int) {
    event == PageShow(true) ==> RestoredPageFits(cfg, Tick(c, now), now)
  }

  ghost predicate SoundStart(session: Session, saved: Option<Saved>, now: int) {
    IsFor(saved, session.sessionId) ==> SoundLog(saved.value.log, now)
  }

  ghost predicate IsSoundStart(cfg: HeartbeatConfig, c: Client) {
    exists session, saved, path, now :: SoundStart(session, saved, now) && c == Start(cfg, session, saved, path, now)
  }

  /** A run in which everything found in storage is sound. */
  ghost predicate IsSoundRun(cfg: HeartbeatConfig, states: seq<Client>, events: seq<Occurrence>) {
    && IsRun(cfg, states, events)
    && IsSoundStart(cfg, states[0])
    && forall i | 0 <= i < |events| :: SoundElsewhere(states[i], events[i].event, events[i].now)
  }

  ghost predicate RestoresFit(cfg: HeartbeatConfig, states: seq<Client>, events: seq<Occurrence>, n: nat)
    requires n <= |events| && n <= |states|
  {
    forall i | 0 <= i < n :: FitsIfRestored(cfg, states[i], events[i].event, events[i].now)
  }

  lemma StartIsSound(cfg: HeartbeatConfig, session: Session, saved: Option<Saved>, path: string, now: int)
    requires SoundStart(session, saved, now)
    ensures FocusInv(Start(cfg, session, saved, path, now))
  {
    var c := Begun(cfg, session, saved, path, now);
    if IsFor(saved, session.sessionId) {
      ZeroFits(saved.value.log, now);
      PageviewKeepsLog(saved.value.log, path, 0, now);
      PageviewKeepsOrdered(saved.value.log, path, 0, now);
      var n := |saved.value.log.actions|;
      assert Ids(c.log.actions)[..n] == Ids(saved.value.log.actions);
    } else {
      FirstPageview(path, 0, now);
    }
    assert FocusMs(c, now) == 0;
    BuildKeepsFocus(c);
  }

  lemma ActivityKeepsFocus(cfg: HeartbeatConfig, c: Client, event: ClientEvent)
    requires FocusInv(c) && IsActivityEvent(event)
    requires event == PageShow(true) ==> RestoredPageFits(cfg, c, c.clock)
    ensures FocusInv(Handle(cfg, c, event, c.clock))
  {
    if event.Focus? || event.VisibilityVisible? || event.LifecycleResume? {
      ActivateKeepsFocus(cfg, c);
    } else if event.PageShow? {
      if event.persisted { RestoreKeepsFocusIff(cfg, c); }
    } else if event.Unload? {
      FlushKeepsFocus(c, event.scroll, event.stored);
    } else {
      StopKeepsFocus(c);
      FlushKeepsFocus(StopActivity(c, c.clock), event.scroll, event.stored);
    }
  }

  lemma PageChangeKeepsFocus(cfg: HeartbeatConfig, c: Client, path: string, scroll: Option<int>, stored: bool)
    requires FocusInv(c)
    ensures FocusInv(SavePoint(EnterPage(c, path, scroll, c.clock), stored))
    ensures FocusInv(SavePoint(RestartActivity(cfg, EnterPage(c, path, scroll, c.clock), c.clock), stored))
  {
    EnterKeepsFocus(c, path, scroll);
    var entered := EnterPage(c, path, scroll, c.clock);
    RestartKeepsFocus(cfg, entered);
    SaveKeepsFocus(entered, stored);
    SaveKeepsFocus(RestartActivity(cfg, entered, c.clock), stored);
  }

  lemma RequestKeepsFocus(cfg: HeartbeatConfig, c: Client, event: ClientEvent)
    requires FocusInv(c) && !IsActivityEvent(event) && CanHappen(c, event, c.clock) && SoundElsewhere(c, event, c.clock)
    ensures FocusInv(Handle(cfg, c, event, c.clock))
  {
    match event {
      case Navigation(path, scroll, stored) => PageChangeKeepsFocus(cfg, c, path, scroll, stored);
      case TrackPageView(path, scroll, stored) => PageChangeKeepsFocus(cfg, c, path, scroll, stored);
      case TrackGoal(name, value, properties) => GoalKeepsFocus(c, name, value, properties);
      case Ping(visible, scroll) => PingKeepsFocus(cfg, c, scroll);
      case SendPayload => BuildKeepsFocus(c);
      case Persist(stored) => SaveKeepsFocus(c, stored);
      case Pause => StopKeepsFocus(c.(isPaused := true));
      case Resume => RestartKeepsFocus(cfg, c.(isPaused := false));
      case Reset(session, path) => ResetKeepsFocus(cfg, c, session, path);
      case Elsewhere(other) => ElsewhereKeepsInv(cfg, c, other);
    }
  }

  /** The focus invariant holds in every state of every sound run in which what is restored fits. */
  lemma {:induction false} RunKeepsFocus(cfg: HeartbeatConfig, states: seq<Client>, events: seq<Occurrence>, n: nat)
    requires IsSoundRun(cfg, states, events) && n < |states| && RestoresFit(cfg, states, events, n)
    ensures FocusInv(states[n])
  {
    if n == 0 {
      var session, saved, path, now :| SoundStart(session, saved, now) && states[0] == Start(cfg, session, saved, path, now);
      StartIsSound(cfg, session, saved, path, now);
    } else {
      RunKeepsFocus(cfg, states, events, n - 1);
      var e, c := events[n - 1], Tick(states[n - 1], events[n - 1].now);
      TickKeepsFocus(states[n - 1], e.now);
      assert FitsIfRestored(cfg, states[n - 1], e.event, e.now);
      if IsActivityEvent(e.event) {
        ActivityKeepsFocus(cfg, c, e.event);
      } else {
        RequestKeepsFocus(cfg, c, e.event);
      }
    }
  }

  /** And then what the document leaves in storage is sound for the next page load, or for another document. */
  lemma NextLoadIsSound(cfg: HeartbeatConfig, states: seq<Client>, events: seq<Occurrence>, n: nat, now: int)
    requires IsSoundRun(cfg, states, events) && n < |states| && RestoresFit(cfg, states, events, n) && states[n].clock <= now
    ensures SoundStart(states[n].session, states[n].saved, now)
  {
    RunKeepsFocus(cfg, states, events, n);
  }

  // ---------------------------------------------------------------- focus time never over-counts

  /** Focus time never over-counts: in every payload the visits are disjoint intervals in order, none was in focus for
      longer than it lasted, and all of them together were in focus for at most the time from the first entry to the
      last exit. */
  lemma PayloadFocusTime(cfg: HeartbeatConfig, states: seq<Client>, events: seq<Occurrence>, n: nat, p: Payload, last: nat)
    requires IsSoundRun(cfg, states, events) && n < |states| && RestoresFit(cfg, states, events, n) && p in states[n].payloads
    requires last < |p.actions| && p.actions[last].Pageview?
    requires forall i | last < i < |p.actions| :: !p.actions[i].Pageview?
    ensures Spaced(p.actions)
    ensures p.actions[0].Pageview?
    ensures 0 <= FocusTotal(p.actions) <= p.actions[last].exitedAt - p.actions[0].enteredAt
  {
    PayloadActionLog(cfg, states, events, n, p);
    RunKeepsFocus(cfg, states, events, n);
    FocusNeverOverCounts(p.actions, 0, last);
  }

  /** A payload built right after a restore that does not fit claims more focus time than the page's age. */
  lemma MisfitIsSent(cfg: HeartbeatConfig, c: Client, now: int)
    requires FocusInv(c) && c.clock <= now && !RestoredPageFits(cfg, Tick(c, now), now)
    ensures var sent := Step(cfg, Step(cfg, c, PageShow(true), now), SendPayload, now);
            |sent.payloads| == |c.payloads| + 1 && !Spaced(sent.payloads[|c.payloads|].actions)
  {
    TickKeepsFocus(c, now);
    var ticked := Tick(c, now);
    ActivateKeepsFocus(cfg, ticked);
    var restored := Step(cfg, c, PageShow(true), now);
    assert restored.log == c.saved.value.log && FocusMs(restored, now) == FocusMs(Activate(cfg, ticked, now), now);
    assert Tick(restored, now).heartbeat == restored.heartbeat;
    TouchSoundIffFits(restored.log, FocusMs(restored, now), now);
    TouchKeepsOrdered(restored.log, FocusMs(restored, now), now);
  }

  lemma {:induction false} FirstMisfit(cfg: HeartbeatConfig, states: seq<Client>, events: seq<Occurrence>, n: nat) returns (i: nat)
    requires n <= |events| && n <= |states| && !RestoresFit(cfg, states, events, n)
    ensures i < n && RestoresFit(cfg, states, events, i) && !FitsIfRestored(cfg, states[i], events[i].event, events[i].now)
  {
    if RestoresFit(cfg, states, events, n - 1) {
      i := n - 1;
    } else {
      i := FirstMisfit(cfg, states, events, n - 1);
    }
  }

  /** Every restore is followed at once by a payload. */
  ghost predicate SendsAfterRestore(events: seq<Occurrence>) {
    forall i | 0 <= i < |events| && events[i].event == PageShow(true) ::
      i + 1 < |events| && events[i + 1] == Occurrence(SendPayload, events[i].now)
  }

  /** Some payload claims more focus time than its visits allow. */
  ghost predicate SomeOverCount(payloads: seq<Payload>) {
    exists p | p in payloads :: !Spaced(p.actions)
  }

  lemma RestoreThenSend(cfg: HeartbeatConfig, states: seq<Client>, events: seq<Occurrence>, i: nat)
    requires IsRun(cfg, states, events) && i < |events| && events[i].event == PageShow(true) && SendsAfterRestore(events)
    ensures i + 2 < |states|
    ensures states[i + 2] == Step(cfg, Step(cfg, states[i], PageShow(true), events[i].now), SendPayload, events[i].now)
  {
    assert states[i + 1] == Step(cfg, states[i], events[i].event, events[i].now);
    assert states[i + 1 + 1] == Step(cfg, states[i + 1], events[i + 1].event, events[i + 1].now);
  }

  lemma MisfitShows(cfg: HeartbeatConfig, states: seq<Client>, events: seq<Occurrence>, i: nat)
    requires IsRun(cfg, states, events) && SendsAfterRestore(events)
    requires i < |events| && FocusInv(states[i]) && !FitsIfRestored(cfg, states[i], events[i].event, events[i].now)
    ensures i + 2 < |states| && SomeOverCount(states[i + 2].payloads)
  {
    assert states[i].clock <= events[i].now;
    RestoreThenSend(cfg, states, events, i);
    MisfitIsSent(cfg, states[i], events[i].now);
  }

  /** The condition is exact over whole runs: if every restore is followed by a payload, then no payload over-counts if
      and only if everything that was restored fits. */
  lemma FocusTimeIffRestoresFit(cfg: HeartbeatConfig, states: seq<Client>, events: seq<Occurrence>)
    requires IsSoundRun(cfg, states, events) && SendsAfterRestore(events)
    ensures !SomeOverCount(states[|events|].payloads) <==> RestoresFit(cfg, states, events, |events|)
  {
    if RestoresFit(cfg, states, events, |events|) {
      RunKeepsFocus(cfg, states, events, |events|);
    } else {
      var i := FirstMisfit(cfg, states, events, |events|);
      RunKeepsFocus(cfg, states, events, i);
      MisfitShows(cfg, states, events, i);
      var p :| p in states[i + 2].payloads && !Spaced(p.actions);
      var k :| 0 <= k < |states[i + 2].payloads| && states[i + 2].payloads[k] == p;
      RunPayloadsGrow(cfg, states, events);
      PayloadsStay(states, i + 2, |events|);
      assert states[|events|].payloads[k] == states[i + 2].payloads[k];
      assert states[|events|].payloads[k] in states[|events|].payloads;
    }
  }

  // ---------------------------------------------------------------- a document alone in its tab

  ghost predicate EnteredBy(log: Log, t: int) {
    OnPage(log) ==> log.actions[log.current.value].enteredAt <= t
  }

  /** The current page, and the one in storage, were entered before the page timer was restarted. */
  ghost predicate PagesAreOld(c: Client) {
    && EnteredBy(c.log, c.ledger.resetAt)
    && (SavedForSession(c) ==> EnteredBy(c.saved.value.log, c.ledger.resetAt))
  }

  lemma EnterKeepsOld(c: Client, path: string, scroll: Option<int>)
    requires FocusInv(c) && PagesAreOld(c)
    ensures PagesAreOld(EnterPage(c, path, scroll, c.clock))
  {
  }

  lemma ActivityKeepsOld(cfg: HeartbeatConfig, c: Client, event: ClientEvent)
    requires FocusInv(c) && PagesAreOld(c) && IsActivityEvent(event)
    ensures PagesAreOld(Handle(cfg, c, event, c.clock))
  {
  }

  lemma RequestKeepsOld(cfg: HeartbeatConfig, c: Client, event: ClientEvent)
    requires FocusInv(c) && PagesAreOld(c) && !IsActivityEvent(event) && !event.Elsewhere? && CanHappen(c, event, c.clock)
    ensures PagesAreOld(Handle(cfg, c, event, c.clock))
  {
    match event {
      case Navigation(path, scroll, stored) => EnterKeepsOld(c, path, scroll);
      case TrackPageView(path, scroll, stored) => EnterKeepsOld(c, path, scroll);
      case _ =>
    }
  }

  ghost predicate Alone(events: seq<Occurrence>) {
    forall i | 0 <= i < |events| :: !events[i].event.Elsewhere?
  }

  /** A document whose storage no other document writes only ever restores what fits, so it never over-counts. */
  lemma {:induction false} AloneRestoresFit(cfg: HeartbeatConfig, states: seq<Client>, events: seq<Occurrence>, n: nat)
    requires IsSoundRun(cfg, states, events) && Alone(events) && n < |states|
    ensures RestoresFit(cfg, states, events, n) && FocusInv(states[n]) && PagesAreOld(states[n])
  {
    if n == 0 {
      RunKeepsFocus(cfg, states, events, 0);
      var session, saved, path, now :| SoundStart(session, saved, now) && states[0] == Start(cfg, session, saved, path, now);
    } else {
      AloneRestoresFit(cfg, states, events, n - 1);
      var e, c := events[n - 1], Tick(states[n - 1], events[n - 1].now);
      TickKeepsFocus(states[n - 1], e.now);
      OldPageFits(cfg, c);
      RunKeepsFocus(cfg, states, events, n);
      if IsActivityEvent(e.event) {
        ActivityKeepsOld(cfg, c, e.event);
      } else {
        RequestKeepsOld(cfg, c, e.event);
      }
    }
  }

  // ---------------------------------------------------------------- an over-count

  const CONFIG := HeartbeatConfig([Tier(0, Some(10000), Some(7000))], 0, false, false)

  lemma StaysActive(h: HeartbeatState, now: int)
    requires TotalActiveMs(h, now) >= 0
    ensures ScheduleNext(CONFIG, h, now) == h
  {
    assert CONFIG.tiers[0].after <= TotalActiveMs(h, now);
  }

  const A_VISIT := Pageview("/a", 1, 60000, 0, 0, 60000)
  const B_VISIT := Pageview("/b", 2, 0, 0, 63000, 63000)
  const B_LOG := Log([A_VISIT, B_VISIT], Some(1))

  /** A page that has been in focus for 60 seconds loses it. */
  lemma AIsLeft(session: Session)
    ensures var c := Step(CONFIG, Start(CONFIG, session, None, "/a", 0), Blur(None, true), 60000);
            && c.log == Log([A_VISIT], None) && c.saved == Some(Saved(session.sessionId, c.log)) && c.session == session
            && !c.isPaused && !c.heartbeat.maxDurationReached && !c.heartbeat.isActive
            && c.heartbeat.pageActiveMs == 60000 && c.heartbeat.accumulatedActiveMs == 60000 && c.clock == 60000
  {
    FirstPageview("/a", 0, 0);
    StaysActive(HeartbeatState(0, 0, true, false, 0, 0, 0, 0), 0);
    assert Start(CONFIG, session, None, "/a", 0).log == Log([Pageview("/a", 1, 0, 0, 0, 0)], Some(0));
  }

  lemma BLogIsSound()
    ensures SoundLog(B_LOG, 63000) && Ids([A_VISIT]) <= Ids(B_LOG.actions)
  {
    var ids := Ids(B_LOG.actions);
    assert ids[..0] == [] && ids[..1] == [A_VISIT.Id()];
    assert PageviewCount(ids[..1]) == 1;
  }

  /** It comes back, takes over the stored log, and sends a payload ten seconds later. */
  lemma BIsTakenOver(c: Client)
    requires c.saved == Some(Saved(c.session.sessionId, B_LOG)) && !c.isPaused && !c.heartbeat.maxDurationReached
    requires !c.heartbeat.isActive && c.heartbeat.pageActiveMs == 60000 && c.heartbeat.accumulatedActiveMs == 60000
    ensures var back := Step(CONFIG, c, PageShow(true), 64000);
            && back.clock == 64000 && back.log == B_LOG && back.payloads == c.payloads
            && FocusMs(back, 74000) == 70000
  {
    StaysActive(c.heartbeat.(activeStartTime := 64000, pageStartTime := 64000, isActive := true, lastPingTime := 64000), 64000);
  }

  lemma BIsOverCounted(c: Client)
    requires c.log == B_LOG && FocusMs(c, 74000) == 70000
    ensures SomeOverCount(Step(CONFIG, c, SendPayload, 74000).payloads)
  {
    var sent, k := Step(CONFIG, c, SendPayload, 74000), |c.payloads|;
    assert sent.payloads[k].actions[1] == B_VISIT.(duration := 70000, exitedAt := 74000);
    assert sent.payloads[k] in sent.payloads;
  }

  /** It happens: page A is in focus for 60 seconds and loses it. Another document of the session stores a visit to B
      that began at 63 seconds and is still its current page. A comes back at 64 seconds, takes over that log, and
      claims at 74 seconds that B, 11 seconds old, was in focus for 70. */
  lemma OverCount(session: Session) returns (states: seq<Client>, events: seq<Occurrence>)
    ensures IsSoundRun(CONFIG, states, events) && |events| == 4
    ensures SomeOverCount(states[4].payloads)
  {
    var stored := Saved(session.sessionId, B_LOG);
    events := [Occurrence(Blur(None, true), 60000), Occurrence(Elsewhere(stored), 63000),
               Occurrence(PageShow(true), 64000), Occurrence(SendPayload, 74000)];
    var c0 := Start(CONFIG, session, None, "/a", 0);
    var c1 := Step(CONFIG, c0, Blur(None, true), 60000);
    AIsLeft(session);
    BLogIsSound();
    var c2 := Step(CONFIG, c1, Elsewhere(stored), 63000);
    var c3 := Step(CONFIG, c2, PageShow(true), 64000);
    BIsTakenOver(c2);
    var c4 := Step(CONFIG, c3, SendPayload, 74000);
    BIsOverCounted(c3);
    states := [c0, c1, c2, c3, c4];
    assert SoundStart(session, None, 0) && GoodStart(session, None) && c0.clock == 0;
    forall i | 0 <= i < 4
      ensures CanHappen(states[i], events[i].event, events[i].now)
      ensures states[i + 1] == Step(CONFIG, states[i], events[i].event, events[i].now)
      ensures SoundElsewhere(states[i], events[i].event, events[i].now)
    {
      if i == 0 {} else if i == 1 {} else if i == 2 {} else {}
    }
  }

  // ---------------------------------------------------------------- focus duration so far

  /** The sum of `getFocusDuration`: stored durations, with the live focus time for the current page. */
  function FocusSum(actions: seq<Action>, currentNumber: Option<int>, liveMs: int): int {
    if actions == [] then 0
    else
      var n := |actions| - 1;
      FocusSum(actions[..n], currentNumber, liveMs) +
      if !actions[n].Pageview? then 0
      else if currentNumber == Some(actions[n].pageNumber) then liveMs
      else actions[n].duration
  }

  function CurrentNumber(log: Log): Option<int> {
    if log.current.Some? && log.current.value < |log.actions| && log.actions[log.current.value].Pageview?
    then Some(log.actions[log.current.value].pageNumber) else None
  }

  lemma PageNumbersDiffer(ids: seq<ActionId>, i: nat, j: nat)
    requires Numbered(ids) && i < j < |ids| && ids[i].PageviewId? && ids[j].PageviewId?
    ensures ids[i].pageNumber < ids[j].pageNumber
  {
    CountUpTo(ids[..j], i);
    assert ids[..j][..i] == ids[..i];
  }

  /** Matching the current page by its number finds exactly the page that a payload would update. */
  lemma LivePageIsCurrent(log: Log, liveMs: int, now: int, i: nat)
    requires Ordered(log) && i < |log.actions| && log.actions[i].Pageview?
    ensures Touch(log, liveMs, now).actions[i].Pageview?
    ensures Touch(log, liveMs, now).actions[i].duration ==
            if CurrentNumber(log) == Some(log.actions[i].pageNumber) then liveMs else log.actions[i].duration
  {
    if log.current.Some? && log.current.value != i {
      var ids, j := Ids(log.actions), log.current.value;
      PageNumbersDiffer(ids, if i < j then i else j, if i < j then j else i);
    }
  }

  /** The second actions have the durations that the sum counts for the first. */
  ghost predicate CountsAs(a: Action, b: Action, currentNumber: Option<int>, liveMs: int) {
    && a.Pageview? == b.Pageview?
    && (a.Pageview? ==> b.duration == if currentNumber == Some(a.pageNumber) then liveMs else a.duration)
  }

  lemma {:induction false} FocusSumIsTotal(a: seq<Action>, b: seq<Action>, currentNumber: Option<int>, liveMs: int)
    requires |a| == |b| && forall i | 0 <= i < |a| :: CountsAs(a[i], b[i], currentNumber, liveMs)
    ensures FocusSum(a, currentNumber, liveMs) == FocusTotal(b)
  {
    if a != [] {
      FocusSumIsTotal(a[..|a| - 1], b[..|b| - 1], currentNumber, liveMs);
    }
  }

  lemma FocusSumIsTouchedTotal(log: Log, liveMs: int, now: int)
    requires Ordered(log)
    ensures FocusSum(log.actions, CurrentNumber(log), liveMs) == FocusTotal(Touch(log, liveMs, now).actions)
  {
    var touched := Touch(log, liveMs, now).actions;
    forall i | 0 <= i < |log.actions| ensures CountsAs(log.actions[i], touched[i], CurrentNumber(log), liveMs) {
      if log.actions[i].Pageview? { LivePageIsCurrent(log, liveMs, now, i); }
    }
    FocusSumIsTotal(log.actions, touched, CurrentNumber(log), liveMs);
  }

  lemma SpacedFromFirst(actions: seq<Action>, now: int)
    requires actions != [] && actions[0].Pageview? && Spaced(actions) && actions[0].enteredAt <= now
    requires forall i | 0 <= i < |actions| && actions[i].Pageview? :: actions[i].exitedAt <= now
    ensures 0 <= FocusTotal(actions) <= now - actions[0].enteredAt
  {
    forall i | 0 <= i < |actions| && actions[i].Pageview? ensures actions[0].enteredAt <= actions[i].enteredAt {
      if i > 0 { assert actions[0].exitedAt <= actions[i].enteredAt; }
    }
    FocusTotalWithin(actions, actions[0].enteredAt, now);
  }

  /** `getFocusDuration`, read at any moment, is at most the time since the first page was entered. */
  lemma FocusDurationBound(cfg: HeartbeatConfig, states: seq<Client>, events: seq<Occurrence>, n: nat, now: int)
    requires IsSoundRun(cfg, states, events) && n < |states| && RestoresFit(cfg, states, events, n) && states[n].clock <= now
    ensures var log := states[n].log;
            && log.actions != [] && log.actions[0].Pageview?
            && 0 <= FocusSum(log.actions, CurrentNumber(log), FocusMs(states[n], now)) <= now - log.actions[0].enteredAt
  {
    RunKeepsFocus(cfg, states, events, n);
    var c := Tick(states[n], now);
    TickKeepsFocus(states[n], now);
    var log, live := c.log, FocusMs(c, now);
    FirstActionIsPageview(Ids(log.actions));
    FocusSumIsTouchedTotal(log, live, now);
    TouchSoundIffFits(log, live, now);
    TouchKeepsIds(log, live, now);
    var touched := Touch(log, live, now).actions;
    assert Ids(touched)[0] == Ids(log.actions)[0];
    SpacedFromFirst(touched, now);
  }
}
