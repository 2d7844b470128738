/** Payloads of a session build on each other: when a restore breaks that, and how a page can come to it. */
module SdkPayloads {
  import opened EventTable
  import opened SessionPayload
  import opened SessionState
  import opened Heartbeat
  import opened Sdk

  // ---------------------------------------------------------------- what can be lost

  /** One of these actions of the log is not at its place in the stored log. */
  ghost predicate Lacks(stored: Log, log: Log, from: nat, to: nat) {
    exists i | from <= i < to && i < |log.actions| ::
      i >= |stored.actions| || Ids(stored.actions)[i] != Ids(log.actions)[i]
  }

  /** A restore that drops actions logged since this document last wrote or read its storage. */
  ghost predicate LosesActions(c: Client, event: ClientEvent) {
    && event == PageShow(true) && SavedForSession(c)
    && Lacks(c.saved.value.log, c.log, c.synced, |c.log.actions|)
  }

  /** The number of actions of its session that this document has sent. */
  ghost function SentCount(payloads: seq<Payload>, sessionId: string): nat {
    if payloads == [] then 0
    else
      var n := |payloads| - 1;
      var before := SentCount(payloads[..n], sessionId);
      if payloads[n].sessionId == sessionId && |payloads[n].actions| > before then |payloads[n].actions| else before
  }

  /** The same, of actions that were sent. */
  ghost predicate LosesSent(c: Client, event: ClientEvent) {
    && event == PageShow(true) && SavedForSession(c)
    && Lacks(c.saved.value.log, c.log, c.synced, SentCount(c.payloads, c.session.sessionId))
  }

  lemma PrefixAt(a: seq<ActionId>, b: seq<ActionId>)
    requires |a| <= |b| && forall i | 0 <= i < |a| :: a[i] == b[i]
    ensures a <= b
  {
  }

  /** If the stored log has the first actions of a log, it has more of them exactly if it lacks none of those. */
  lemma LacksOf(stored: Log, log: Log, from: nat, to: nat)
    requires from <= |log.actions| && to <= |log.actions| && Ids(log.actions)[..from] <= Ids(stored.actions)
    ensures Lacks(stored, log, from, to) <==> !(Ids(log.actions)[..to] <= Ids(stored.actions))
  {
    var ids, kept := Ids(log.actions), Ids(stored.actions);
    if !Lacks(stored, log, from, to) {
      forall i | from <= i < to ensures i < |kept| && kept[i] == ids[i] {
        assert Ids(log.actions)[i] == ids[i];
      }
      if from < to { assert ids[to - 1] == Ids(log.actions)[to - 1]; }
      forall i | 0 <= i < to ensures ids[i] == kept[i] {
        if i < from { assert ids[i] == ids[..from][i]; }
      }
      PrefixAt(ids[..to], kept);
    } else {
      var i :| from <= i < to && i < |ids| && (i >= |kept| || kept[i] != ids[i]);
      assert ids[..to][i] == ids[i];
    }
  }

  lemma LacksMeans(c: Client, to: nat)
    requires StorageKeepsUp(c) && SavedForSession(c) && to <= |c.log.actions|
    ensures Lacks(c.saved.value.log, c.log, c.synced, to) <==> !(Ids(c.log.actions)[..to] <= Ids(c.saved.value.log.actions))
  {
    LacksOf(c.saved.value.log, c.log, c.synced, to);
  }

  // ---------------------------------------------------------------- steps within a session

  /** Every payload of a session extends the earlier ones of that session. */
  ghost predicate Cumulative(payloads: seq<Payload>) {
    forall i, j | 0 <= i <= j < |payloads| && payloads[i].sessionId == payloads[j].sessionId ::
      Ids(payloads[i].actions) <= Ids(payloads[j].actions)
  }

  ghost predicate LogExtendsPayloads(c: Client) {
    Cumulative(c.payloads) && SentWithin(c.payloads, c.session.sessionId, Ids(c.log.actions))
  }

  /** These actions extend every payload of the session. */
  ghost predicate SentWithin(payloads: seq<Payload>, sessionId: string, ids: seq<ActionId>) {
    forall p | p in payloads && p.sessionId == sessionId :: Ids(p.actions) <= ids
  }

  ghost predicate SendsLog(payloads: seq<Payload>, after: Client) {
    && |after.payloads| == |payloads| + 1
    && after.payloads[..|payloads|] == payloads
    && after.payloads[|payloads|].sessionId == after.session.sessionId
    && Ids(after.payloads[|payloads|].actions) == Ids(after.log.actions)
  }

  /** A step that does not change the session only appends to the log, and sends what is in the log. */
  ghost predicate Extends(before: Client, after: Client) {
    && after.session == before.session
    && Ids(before.log.actions) <= Ids(after.log.actions)
    && (after.payloads == before.payloads || SendsLog(before.payloads, after))
  }

  lemma BuildExtends(before: Client, c: Client, now: int)
    requires c.session == before.session && c.payloads == before.payloads
    requires Ids(before.log.actions) <= Ids(c.log.actions)
    ensures Extends(before, Build(c, now))
  {
    TouchKeepsIds(c.log, FocusMs(c, now), now);
  }

  lemma ScrolledKeepsIds(log: Log, scroll: Option<int>)
    ensures Ids(Scrolled(log, scroll).actions) == Ids(log.actions)
  {
    if scroll.Some? { ScrollKeepsIds(log, scroll.value); }
  }

  lemma FlushExtends(before: Client, c: Client, scroll: Option<int>, stored: bool, now: int)
    requires c.session == before.session && c.payloads == before.payloads && c.log == before.log
    ensures Extends(before, FlushOnce(c, scroll, stored, now))
  {
    if !c.flushed {
      ScrolledKeepsIds(c.log, scroll);
      TouchKeepsIds(Scrolled(c.log, scroll), FocusMs(c, now), now);
      BuildExtends(before, c.(flushed := true, log := FinalizeForUnload(Scrolled(c.log, scroll), FocusMs(c, now), now)), now);
    }
  }

  lemma AddedPageExtends(log: Log, path: string, scroll: Option<int>, focusMs: int, now: int)
    ensures Ids(log.actions) <= Ids(AddPageview(Scrolled(log, scroll), path, focusMs, now).actions)
  {
    ScrolledKeepsIds(log, scroll);
    TouchKeepsIds(Scrolled(log, scroll), focusMs, now);
  }

  lemma NavigationExtends(cfg: HeartbeatConfig, c: Client, path: string, scroll: Option<int>, now: int)
    ensures Extends(c, EnterPage(c, path, scroll, now))
    ensures Extends(c, RestartActivity(cfg, EnterPage(c, path, scroll, now), now))
  {
    AddedPageExtends(c.log, path, scroll, FocusMs(c, now), now);
  }

  lemma PingExtends(cfg: HeartbeatConfig, c: Client, scroll: Option<int>, now: int)
    ensures Extends(c, PingStep(cfg, c, scroll, now))
  {
    ScrolledKeepsIds(c.log, scroll);
    var h := c.heartbeat.(currentTierIndex := CurrentTier(cfg.tiers, TotalActiveMs(c.heartbeat, now)));
    BuildExtends(c, c.(heartbeat := h, log := Scrolled(c.log, scroll)), now);
  }

  lemma GoalExtends(c: Client, name: string, value: Option<real>, properties: map<string, string>, now: int)
    ensures Extends(c, Build(c.(log := AddGoal(c.log, name, value, properties, now)), now))
  {
    BuildExtends(c, c.(log := AddGoal(c.log, name, value, properties, now)), now);
  }

  lemma ActivateExtends(cfg: HeartbeatConfig, c: Client, now: int)
    ensures Activate(cfg, c, now).log == c.log && Activate(cfg, c, now).session == c.session
    ensures Activate(cfg, c, now).payloads == c.payloads && Activate(cfg, c, now).saved == c.saved
  {
  }

  lemma ActivityExtends(cfg: HeartbeatConfig, c: Client, event: ClientEvent, now: int)
    requires IsActivityEvent(event) && event != PageShow(true)
    ensures Extends(c, Handle(cfg, c, event, now))
  {
    if event.Focus? || event.VisibilityVisible? || event.LifecycleResume? || event.PageShow? {
      ActivateExtends(cfg, c, now);
    } else if event.Unload? {
      FlushExtends(c, c, event.scroll, event.stored, now);
    } else {
      FlushExtends(c, StopActivity(c, now), event.scroll, event.stored, now);
    }
  }

  lemma RequestExtends(cfg: HeartbeatConfig, c: Client, event: ClientEvent, now: int)
    requires !IsActivityEvent(event) && !event.Reset?
    ensures Extends(c, Handle(cfg, c, event, now))
  {
    match event {
      case Navigation(path, scroll, stored) => NavigationExtends(cfg, c, path, scroll, now);
      case TrackPageView(path, scroll, stored) => NavigationExtends(cfg, c, path, scroll, now);
      case TrackGoal(name, value, properties) => GoalExtends(c, name, value, properties, now);
      case Ping(visible, scroll) => if !c.isPaused && c.heartbeat.isActive && visible { PingExtends(cfg, c, scroll, now); }
      case SendPayload => BuildExtends(c, c, now);
      case Persist(_) =>
      case Pause =>
      case Resume =>
      case Elsewhere(_) =>
    }
  }

  lemma HandleExtends(cfg: HeartbeatConfig, c: Client, event: ClientEvent, now: int)
    requires !event.Reset? && event != PageShow(true)
    ensures Extends(c, Handle(cfg, c, event, now))
  {
    if IsActivityEvent(event) {
      ActivityExtends(cfg, c, event, now);
    } else {
      RequestExtends(cfg, c, event, now);
    }
  }

  /** Within a session a step keeps every logged action in its place if and only if it is not a restore that lacks
      one logged since storage was last written or read. */
  lemma LogGrowsUnlessLost(cfg: HeartbeatConfig, c: Client, event: ClientEvent, now: int)
    requires ClientInv(c) && !event.Reset?
    ensures Ids(c.log.actions) <= Ids(Handle(cfg, c, event, now).log.actions) <==> !LosesActions(c, event)
  {
    if event == PageShow(true) {
      ActivateExtends(cfg, c, now);
      if SavedForSession(c) {
        LacksMeans(c, |c.log.actions|);
        assert Ids(c.log.actions)[..|c.log.actions|] == Ids(c.log.actions);
      }
    } else {
      HandleExtends(cfg, c, event, now);
    }
  }

  lemma ExtendsKeepsCumulative(before: Client, after: Client)
    requires LogExtendsPayloads(before) && Extends(before, after)
    ensures LogExtendsPayloads(after)
  {
    forall p | p in before.payloads && p.sessionId == after.session.sessionId
      ensures Ids(p.actions) <= Ids(after.log.actions)
    {
      assert Ids(p.actions) <= Ids(before.log.actions);
    }
    forall i, j | 0 <= i <= j < |after.payloads| && after.payloads[i].sessionId == after.payloads[j].sessionId
      ensures Ids(after.payloads[i].actions) <= Ids(after.payloads[j].actions)
    {
      if j == |before.payloads| && i < j { assert after.payloads[i] in before.payloads; }
    }
  }

  lemma ResetKeepsCumulative(cfg: HeartbeatConfig, c: Client, session: Session, path: string, now: int)
    requires LogExtendsPayloads(c) && SessionIsNew(c, session.sessionId)
    ensures LogExtendsPayloads(Handle(cfg, c, Reset(session, path), now))
  {
    var restarted := RestartActivity(cfg, NewSession(c, session, path, now), now);
    assert LogExtendsPayloads(restarted);
    BuildExtends(restarted, restarted, now);
    ExtendsKeepsCumulative(restarted, Build(restarted, now));
  }

  lemma StartExtends(cfg: HeartbeatConfig, session: Session, saved: Option<Saved>, path: string, now: int)
    ensures LogExtendsPayloads(Start(cfg, session, saved, path, now))
  {
    var c := Start(cfg, session, saved, path, now);
    var log := AddPageview(StartLog(session, saved), path, PageActiveMs(INITIAL_STATE, now), now);
    TouchKeepsIds(log, FocusMs(c, now), now);
    assert |c.payloads| == 1 && c.payloads[0].actions == c.log.actions;
  }

  // ---------------------------------------------------------------- runs

  lemma {:induction false} SentIsInLog(payloads: seq<Payload>, sessionId: string, ids: seq<ActionId>)
    ensures SentWithin(payloads, sessionId, ids) ==> SentCount(payloads, sessionId) <= |ids|
    ensures forall p | p in payloads && p.sessionId == sessionId :: |p.actions| <= SentCount(payloads, sessionId)
  {
    if payloads != [] {
      var n := |payloads| - 1;
      assert payloads == payloads[..n] + [payloads[n]];
      SentIsInLog(payloads[..n], sessionId, ids);
      assert forall p | p in payloads[..n] :: p in payloads;
      assert payloads[n] in payloads;
    }
  }

  lemma {:induction false} SentIsSent(payloads: seq<Payload>, sessionId: string) returns (p: Payload)
    requires SentCount(payloads, sessionId) > 0
    ensures p in payloads && p.sessionId == sessionId && |p.actions| == SentCount(payloads, sessionId)
  {
    var n := |payloads| - 1;
    if SentCount(payloads, sessionId) == SentCount(payloads[..n], sessionId) {
      p := SentIsSent(payloads[..n], sessionId);
    } else {
      p := payloads[n];
    }
  }

  lemma PrefixOfPrefix(a: seq<ActionId>, b: seq<ActionId>, n: nat)
    requires a <= b && |a| <= n <= |b|
    ensures a <= b[..n]
  {
  }

  lemma SentWithinIff(payloads: seq<Payload>, sessionId: string, ids: seq<ActionId>, stored: seq<ActionId>)
    requires SentWithin(payloads, sessionId, ids) && SentCount(payloads, sessionId) <= |ids|
    ensures SentWithin(payloads, sessionId, stored) <==> ids[..SentCount(payloads, sessionId)] <= stored
  {
    var sent := SentCount(payloads, sessionId);
    SentIsInLog(payloads, sessionId, ids);
    if ids[..sent] <= stored {
      forall p | p in payloads && p.sessionId == sessionId ensures Ids(p.actions) <= stored {
        PrefixOfPrefix(Ids(p.actions), ids, sent);
      }
    } else if sent > 0 {
      var p := SentIsSent(payloads, sessionId);
      assert Ids(p.actions) == ids[..sent];
    }
  }

  /** A restore keeps the log an extension of what was sent if and only if nothing that was sent is lost. */
  lemma RestoreKeepsCumulativeIff(cfg: HeartbeatConfig, c: Client, now: int)
    requires ClientInv(c) && LogExtendsPayloads(c)
    ensures LogExtendsPayloads(Handle(cfg, c, PageShow(true), now)) <==> !LosesSent(c, PageShow(true))
  {
    ActivateExtends(cfg, c, now);
    if SavedForSession(c) {
      var sid := c.session.sessionId;
      SentIsInLog(c.payloads, sid, Ids(c.log.actions));
      LacksMeans(c, SentCount(c.payloads, sid));
      SentWithinIff(c.payloads, sid, Ids(c.log.actions), Ids(c.saved.value.log.actions));
    }
  }

  /** The exact condition for a step: the log goes on extending what was sent if and only if the step is not a restore
      that lacks something sent since storage was last written or read. */
  lemma CumulativeUnlessSentIsLost(cfg: HeartbeatConfig, c: Client, event: ClientEvent, now: int)
    requires ClientInv(c) && CanHappen(c, event, now) && LogExtendsPayloads(c)
    ensures LogExtendsPayloads(Handle(cfg, c, event, now)) <==> !LosesSent(c, event)
  {
    if event == PageShow(true) {
      RestoreKeepsCumulativeIff(cfg, c, now);
    } else if event.Reset? {
      ResetKeepsCumulative(cfg, c, event.session, event.path, now);
    } else {
      HandleExtends(cfg, c, event, now);
      ExtendsKeepsCumulative(c, Handle(cfg, c, event, now));
    }
  }

  /** The payloads of a session are cumulative in every run in which no restore loses actions that were sent. */
  lemma {:induction false} PayloadsAreCumulative(cfg: HeartbeatConfig, states: seq<Client>, events: seq<Occurrence>, n: nat)
    requires IsRun(cfg, states, events) && n < |states|
    requires forall i | 0 <= i < n :: !LosesSent(states[i], events[i].event)
    ensures LogExtendsPayloads(states[n])
  {
    if n == 0 {
      var session, saved, path, now :| GoodStart(session, saved) && states[0] == Start(cfg, session, saved, path, now);
      StartExtends(cfg, session, saved, path, now);
    } else {
      PayloadsAreCumulative(cfg, states, events, n - 1);
      RunKeepsInv(cfg, states, events, n - 1);
      var e := events[n - 1];
      TickKeepsInv(states[n - 1], e.now);
      CumulativeUnlessSentIsLost(cfg, Tick(states[n - 1], e.now), e.event, e.now);
    }
  }

  /** The next payload is cumulative if and only if the log extends what was sent. */
  lemma NextPayloadIff(cfg: HeartbeatConfig, c: Client, now: int)
    requires Cumulative(c.payloads)
    ensures Cumulative(Step(cfg, c, SendPayload, now).payloads) <==> LogExtendsPayloads(c)
  {
    var sent := Step(cfg, c, SendPayload, now);
    TouchKeepsIds(c.log, FocusMs(Tick(c, now), now), now);
    var k := |c.payloads|;
    assert Ids(sent.payloads[k].actions) == Ids(c.log.actions) && sent.payloads[..k] == c.payloads;
    if Cumulative(sent.payloads) {
      forall p | p in c.payloads && p.sessionId == c.session.sessionId ensures Ids(p.actions) <= Ids(c.log.actions) {
        var i :| 0 <= i < k && c.payloads[i] == p;
        assert sent.payloads[i] == p && sent.payloads[i].sessionId == sent.payloads[k].sessionId;
      }
    }
    if LogExtendsPayloads(c) {
      forall i, j | 0 <= i <= j <= k && sent.payloads[i].sessionId == sent.payloads[j].sessionId
        ensures Ids(sent.payloads[i].actions) <= Ids(sent.payloads[j].actions)
      {
        if i < k { assert sent.payloads[i] == c.payloads[i]; }
        if j < k { assert sent.payloads[j] == c.payloads[j]; }
      }
    }
  }

  lemma CumulativePrefix(a: seq<Payload>, b: seq<Payload>)
    requires a <= b && Cumulative(b)
    ensures Cumulative(a)
  {
    assert forall i | 0 <= i < |a| :: a[i] == b[i];
  }

  ghost predicate PayloadAfterRestore(events: seq<Occurrence>) {
    forall i | 0 <= i < |events| && events[i].event == PageShow(true) ::
      i + 1 < |events| && events[i + 1].event == SendPayload
  }

  ghost predicate NothingSentIsLost(states: seq<Client>, events: seq<Occurrence>, n: nat)
    requires n <= |events| && n <= |states|
  {
    forall i | 0 <= i < n :: !LosesSent(states[i], events[i].event)
  }

  lemma {:induction false} FirstLoss(states: seq<Client>, events: seq<Occurrence>, n: nat) returns (i: nat)
    requires n <= |events| && n <= |states| && !NothingSentIsLost(states, events, n)
    ensures i < n && NothingSentIsLost(states, events, i) && LosesSent(states[i], events[i].event)
  {
    if NothingSentIsLost(states, events, n - 1) {
      i := n - 1;
    } else {
      i := FirstLoss(states, events, n - 1);
    }
  }

  lemma LossShows(cfg: HeartbeatConfig, states: seq<Client>, events: seq<Occurrence>, i: nat)
    requires IsRun(cfg, states, events) && PayloadAfterRestore(events)
    requires i < |events| && LogExtendsPayloads(states[i]) && LosesSent(states[i], events[i].event)
    ensures i + 2 < |states| && !Cumulative(states[i + 2].payloads)
  {
    var e := events[i];
    RunKeepsInv(cfg, states, events, i);
    TickKeepsInv(states[i], e.now);
    CumulativeUnlessSentIsLost(cfg, Tick(states[i], e.now), e.event, e.now);
    assert states[i + 1 + 1] == Step(cfg, states[i + 1], events[i + 1].event, events[i + 1].now);
    ActivateExtends(cfg, Tick(states[i], e.now), e.now);
    assert Cumulative(states[i + 1].payloads);
    NextPayloadIff(cfg, states[i + 1], events[i + 1].now);
  }

  /** The exact condition for whole runs: if every restore is followed by a payload, all payloads are cumulative if and
      only if no restore loses actions that were sent. */
  lemma CumulativeIffNothingSentIsLost(cfg: HeartbeatConfig, states: seq<Client>, events: seq<Occurrence>)
    requires IsRun(cfg, states, events) && PayloadAfterRestore(events)
    ensures Cumulative(states[|events|].payloads) <==> NothingSentIsLost(states, events, |events|)
  {
    if NothingSentIsLost(states, events, |events|) {
      PayloadsAreCumulative(cfg, states, events, |events|);
    } else {
      var i := FirstLoss(states, events, |events|);
      PayloadsAreCumulative(cfg, states, events, i);
      LossShows(cfg, states, events, i);
      RunPayloadsGrow(cfg, states, events);
      PayloadsStay(states, i + 2, |events|);
      if Cumulative(states[|events|].payloads) { CumulativePrefix(states[i + 2].payloads, states[|events|].payloads); }
    }
  }

  // ---------------------------------------------------------------- a document alone in its tab

  /** Storage holds exactly what this document last wrote or read. */
  ghost predicate OwnStorage(c: Client) {
    SavedForSession(c) ==> |c.saved.value.log.actions| == c.synced
  }

  lemma StepKeepsOwnStorage(cfg: HeartbeatConfig, c: Client, event: ClientEvent, now: int)
    requires OwnStorage(c) && !event.Elsewhere? && CanHappen(c, event, now)
    ensures OwnStorage(Handle(cfg, c, event, now))
  {
  }

  lemma {:induction false} AloneOwnsStorage(cfg: HeartbeatConfig, states: seq<Client>, events: seq<Occurrence>, n: nat)
    requires IsRun(cfg, states, events) && n < |states|
    requires forall i | 0 <= i < n :: !events[i].event.Elsewhere?
    ensures OwnStorage(states[n])
  {
    if n == 0 {
      var session, saved, path, now :| GoodStart(session, saved) && states[0] == Start(cfg, session, saved, path, now);
    } else {
      AloneOwnsStorage(cfg, states, events, n - 1);
      StepKeepsOwnStorage(cfg, Tick(states[n - 1], events[n - 1].now), events[n - 1].event, events[n - 1].now);
    }
  }

  /** When no other document writes its storage, a document loses actions, or sent actions, exactly when it has logged,
      or sent, more than storage holds. */
  lemma AloneLosesIff(c: Client)
    requires ClientInv(c) && OwnStorage(c) && SavedForSession(c) && LogExtendsPayloads(c)
    ensures LosesActions(c, PageShow(true)) <==> |c.saved.value.log.actions| < |c.log.actions|
    ensures LosesSent(c, PageShow(true)) <==> |c.saved.value.log.actions| < SentCount(c.payloads, c.session.sessionId)
  {
    var sent := SentCount(c.payloads, c.session.sessionId);
    SentIsInLog(c.payloads, c.session.sessionId, Ids(c.log.actions));
    if c.synced < sent { assert c.synced < |c.log.actions| && c.synced >= |c.saved.value.log.actions|; }
    if c.synced < |c.log.actions| { assert c.synced >= |c.saved.value.log.actions|; }
  }

  /** A page that enters the back-forward cache is unloaded first. It can lose actions when it comes back exactly if
      there are unsaved ones and the unload did not save them: because a flush had already happened since the page was
      last shown or focused, or because the write failed. */
  lemma LossNeedsUnsavedUnload(cfg: HeartbeatConfig, c: Client, scroll: Option<int>, stored: bool, now: int)
    requires ClientInv(c) && OwnStorage(c)
    ensures LosesActions(Step(cfg, c, Unload(scroll, stored), now), PageShow(true)) <==>
            (c.flushed || !stored) && SavedForSession(c) && c.synced < |c.log.actions|
  {
    var after := Step(cfg, c, Unload(scroll, stored), now);
    FlushExtends(c, Tick(c, now), scroll, stored, now);
    if !c.flushed {
      ScrolledKeepsIds(c.log, scroll);
      assert |after.log.actions| == |c.log.actions|;
    }
    if SavedForSession(after) && after.synced < |after.log.actions| {
      assert after.synced >= |after.saved.value.log.actions|;
    }
  }

  // ---------------------------------------------------------------- a lost goal

  lemma BlurSaves(cfg: HeartbeatConfig, c: Client, now: int)
    requires !c.flushed
    ensures var after := Step(cfg, c, Blur(None, true), now);
            && after.saved == Some(Saved(c.session.sessionId, after.log)) && after.flushed
            && after.session == c.session && after.clock == now && |after.log.actions| == |c.log.actions|
  {
  }

  lemma TrackGoalSends(cfg: HeartbeatConfig, c: Client, name: string, now: int)
    requires |c.log.actions| < MAX_ACTIONS
    ensures var after := Step(cfg, c, TrackGoal(name, None, map[]), now);
            && SendsLog(c.payloads, after) && after.saved == c.saved && after.session == c.session && after.clock == now
            && |after.log.actions| == |c.log.actions| + 1
            && Ids(after.log.actions)[|c.log.actions|].GoalId? && Ids(after.log.actions)[|c.log.actions|].name == name
  {
    var ticked := Tick(c, now);
    var log := AddGoal(c.log, name, None, map[], now);
    TouchKeepsIds(log, FocusMs(ticked, now), now);
    assert Ids(log.actions)[|c.log.actions|] == log.actions[|c.log.actions|].Id();
  }

  lemma UnloadOfFlushed(cfg: HeartbeatConfig, c: Client, now: int)
    requires c.flushed
    ensures Step(cfg, c, Unload(None, true), now) == Tick(c, now)
  {
  }

  lemma PageShowRestores(cfg: HeartbeatConfig, c: Client, now: int)
    requires SavedForSession(c)
    ensures var after := Step(cfg, c, PageShow(true), now);
            && after.log == c.saved.value.log && after.payloads == c.payloads
            && after.session == c.session && after.clock == now
  {
    ActivateExtends(cfg, Tick(c, now), now);
  }

  lemma DifferentGoals(payloads: seq<Payload>, i: nat, j: nat, n: nat)
    requires i < j < |payloads| && payloads[i].sessionId == payloads[j].sessionId
    requires n < |payloads[i].actions| && n < |payloads[j].actions|
    requires Ids(payloads[i].actions)[n] != Ids(payloads[j].actions)[n]
    ensures !Cumulative(payloads)
  {
  }

  /** From any client that has not flushed: blur, send goal a, unload, return from the cache, send goal b. */
  lemma BlurSendReturnSend(cfg: HeartbeatConfig, c0: Client, t: int)
    returns (c1: Client, c2: Client, c3: Client, c4: Client, c5: Client)
    requires !c0.flushed && |c0.log.actions| < MAX_ACTIONS
    ensures c1 == Step(cfg, c0, Blur(None, true), t) && c2 == Step(cfg, c1, TrackGoal("a", None, map[]), t)
    ensures c3 == Step(cfg, c2, Unload(None, true), t) && c4 == Step(cfg, c3, PageShow(true), t)
    ensures c5 == Step(cfg, c4, TrackGoal("b", None, map[]), t)
    ensures c1.clock == c2.clock == c3.clock == c4.clock == t
    ensures !Cumulative(c5.payloads)
  {
    c1 := Step(cfg, c0, Blur(None, true), t);
    BlurSaves(cfg, c0, t);
    c2 := Step(cfg, c1, TrackGoal("a", None, map[]), t);
    TrackGoalSends(cfg, c1, "a", t);
    assert c2.flushed;
    c3 := Step(cfg, c2, Unload(None, true), t);
    UnloadOfFlushed(cfg, c2, t);
    c4 := Step(cfg, c3, PageShow(true), t);
    PageShowRestores(cfg, c3, t);
    c5 := Step(cfg, c4, TrackGoal("b", None, map[]), t);
    TrackGoalSends(cfg, c4, "b", t);
    TwoGoalsInOnePlace(c1, c2, c4, c5);
  }

  lemma TwoGoalsInOnePlace(c1: Client, c2: Client, c4: Client, c5: Client)
    requires SendsLog(c1.payloads, c2) && c4.payloads == c2.payloads && SendsLog(c4.payloads, c5)
    requires c5.session == c2.session && |c4.log.actions| == |c1.log.actions|
    requires |c2.log.actions| == |c1.log.actions| + 1 && |c5.log.actions| == |c4.log.actions| + 1
    requires var n := |c1.log.actions|; Ids(c2.log.actions)[n] != Ids(c5.log.actions)[n]
    ensures !Cumulative(c5.payloads)
  {
    var k, n := |c1.payloads|, |c1.log.actions|;
    assert c5.payloads[k] == c2.payloads[k];
    assert |Ids(c2.payloads[k].actions)| == n + 1 && |Ids(c5.payloads[k + 1].actions)| == n + 1;
    DifferentGoals(c5.payloads, k, k + 1, n);
  }

  /** It happens: a window loses focus, which saves its log. A goal is recorded and sent. The page is unloaded, which
      saves nothing because the log counts as flushed, and comes back from the cache with the log that was saved. The
      next goal takes the place of the first. */
  lemma LostGoal(cfg: HeartbeatConfig, session: Session) returns (states: seq<Client>, events: seq<Occurrence>)
    ensures IsRun(cfg, states, events) && |events| == 5
    ensures events[2].event == Unload(None, true) && events[3].event == PageShow(true)
    ensures !Cumulative(states[5].payloads)
  {
    events := [Occurrence(Blur(None, true), 1), Occurrence(TrackGoal("a", None, map[]), 1), Occurrence(Unload(None, true), 1),
               Occurrence(PageShow(true), 1), Occurrence(TrackGoal("b", None, map[]), 1)];
    var c0 := FreshStart(cfg, session);
    var c1, c2, c3, c4, c5 := BlurSendReturnSend(cfg, c0, 1);
    states := [c0, c1, c2, c3, c4, c5];
    IsRunOf(cfg, states, events);
  }

  lemma FreshStart(cfg: HeartbeatConfig, session: Session) returns (c: Client)
    ensures IsStart(cfg, c) && |c.log.actions| == 1 && c.clock == 0 && !c.flushed
  {
    c := Start(cfg, session, None, "/", 0);
    assert GoodStart(session, None);
  }

  ghost predicate Follows(cfg: HeartbeatConfig, states: seq<Client>, events: seq<Occurrence>, i: nat)
    requires i < |events| && i + 1 < |states|
  {
    && !events[i].event.Reset? && !events[i].event.Elsewhere? && states[i].clock <= events[i].now
    && states[i + 1] == Step(cfg, states[i], events[i].event, events[i].now)
  }

  lemma IsRunOf(cfg: HeartbeatConfig, states: seq<Client>, events: seq<Occurrence>)
    requires |states| == 6 && |events| == 5 && IsStart(cfg, states[0])
    requires Follows(cfg, states, events, 0) && Follows(cfg, states, events, 1) && Follows(cfg, states, events, 2)
    requires Follows(cfg, states, events, 3) && Follows(cfg, states, events, 4)
    ensures IsRun(cfg, states, events)
  {
    forall i | 0 <= i < 5
      ensures CanHappen(states[i], events[i].event, events[i].now)
      ensures states[i + 1] == Step(cfg, states[i], events[i].event, events[i].now)
    {
      assert Follows(cfg, states, events, i);
    }
  }
}
