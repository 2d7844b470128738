/** A session over the page loads of a tab: each load starts from what storage holds. */
module SdkTab {
  import opened EventTable
  import opened SessionPayload
  import opened SessionState
  import opened Heartbeat
  import opened Sdk
  import opened SdkPayloads

  /** An event of the page that is open, or the load of another one, which continues the session or begins a new one. */
  datatype TabEvent = InPage(event: ClientEvent) | PageLoad(session: Session, path: string)

  datatype TabOccurrence = TabOccurrence(event: TabEvent, now: int)

  /** The new page before its first payload. The record of payloads goes on. */
  function Loaded(cfg: HeartbeatConfig, c: Client, session: Session, path: string, now: int): Client {
    Begun(cfg, session, c.saved, path, now).(payloads := c.payloads)
  }

  function TabStep(cfg: HeartbeatConfig, c: Client, event: TabEvent, now: int): Client {
    match event
    case InPage(e) => Step(cfg, c, e, now)
    case PageLoad(session, path) => Build(Loaded(cfg, c, session, path, now), now)
  }

  ghost predicate TabCanHappen(c: Client, event: TabEvent, now: int) {
    match event
    case InPage(e) => CanHappen(c, e, now)
    case PageLoad(session, _) => c.clock <= now && (session.sessionId == c.session.sessionId || SessionIsNew(c, session.sessionId))
  }

  ghost predicate IsTabRun(cfg: HeartbeatConfig, states: seq<Client>, events: seq<TabOccurrence>) {
    && |states| == |events| + 1
    && IsStart(cfg, states[0])
    && forall i | 0 <= i < |events| ::
         TabCanHappen(states[i], events[i].event, events[i].now)
         && states[i + 1] == TabStep(cfg, states[i], events[i].event, events[i].now)
  }

  // ---------------------------------------------------------------- the action log

  lemma LoadedHasInv(cfg: HeartbeatConfig, c: Client, session: Session, path: string, now: int)
    requires ClientInv(c) && TabCanHappen(c, PageLoad(session, path), now)
    ensures ClientInv(Loaded(cfg, c, session, path, now))
  {
    BegunHasInv(cfg, session, c.saved, path, now);
  }

  lemma TabStepKeepsInv(cfg: HeartbeatConfig, c: Client, event: TabEvent, now: int)
    requires ClientInv(c) && TabCanHappen(c, event, now)
    ensures ClientInv(TabStep(cfg, c, event, now))
  {
    match event {
      case InPage(e) =>
        TickKeepsInv(c, now);
        HandleKeepsInv(cfg, Tick(c, now), e);
      case PageLoad(session, path) =>
        LoadedHasInv(cfg, c, session, path, now);
        BuildKeepsInv(Loaded(cfg, c, session, path, now));
    }
  }

  lemma {:induction false} TabKeepsInv(cfg: HeartbeatConfig, states: seq<Client>, events: seq<TabOccurrence>, n: nat)
    requires IsTabRun(cfg, states, events) && n < |states|
    ensures ClientInv(states[n])
  {
    if n == 0 {
      var session, saved, path, now :| GoodStart(session, saved) && states[0] == Start(cfg, session, saved, path, now);
      StartHasInv(cfg, session, saved, path, now);
    } else {
      TabKeepsInv(cfg, states, events, n - 1);
      TabStepKeepsInv(cfg, states[n - 1], events[n - 1].event, events[n - 1].now);
    }
  }

  /** In every payload of every page load of a tab, pageviews are numbered 1, 2, 3, ... without a gap, goals point to a
      page already seen, and there are at most 1000 actions. */
  lemma TabActionLog(cfg: HeartbeatConfig, states: seq<Client>, events: seq<TabOccurrence>, n: nat, p: Payload)
    requires IsTabRun(cfg, states, events) && n < |states| && p in states[n].payloads
    ensures 1 <= |p.actions| <= MAX_ACTIONS && Numbered(Ids(p.actions)) && p.actions[0].Pageview?
  {
    TabKeepsInv(cfg, states, events, n);
    FirstActionIsPageview(Ids(p.actions));
  }

  // ---------------------------------------------------------------- payloads build on each other

  /** The log with which the new page of the same session starts lacks an action that was sent since storage was last
      written or read. */
  ghost predicate LoadLosesSent(cfg: HeartbeatConfig, c: Client, session: Session, path: string, now: int) {
    && session.sessionId == c.session.sessionId
    && Lacks(Loaded(cfg, c, session, path, now).log, c.log, c.synced, SentCount(c.payloads, c.session.sessionId))
  }

  ghost predicate TabLosesSent(cfg: HeartbeatConfig, c: Client, event: TabEvent, now: int) {
    match event
    case InPage(e) => LosesSent(c, e)
    case PageLoad(session, path) => LoadLosesSent(cfg, c, session, path, now)
  }

  /** The new log extends what is stored. */
  lemma LoadedExtendsStored(cfg: HeartbeatConfig, c: Client, session: Session, path: string, now: int)
    requires ClientInv(c) && session.sessionId == c.session.sessionId
    ensures c.synced <= |c.log.actions|
    ensures Ids(c.log.actions)[..c.synced] <= Ids(Loaded(cfg, c, session, path, now).log.actions)
  {
    if SavedForSession(c) {
      AddedPageExtends(c.saved.value.log, path, None, PageActiveMs(INITIAL_STATE, now), now);
    }
  }

  lemma LoadedSentIff(cfg: HeartbeatConfig, c: Client, session: Session, path: string, now: int)
    requires ClientInv(c) && LogExtendsPayloads(c) && TabCanHappen(c, PageLoad(session, path), now)
    ensures LogExtendsPayloads(Loaded(cfg, c, session, path, now)) <==> !LoadLosesSent(cfg, c, session, path, now)
  {
    if session.sessionId == c.session.sessionId {
      var sid, log := c.session.sessionId, Loaded(cfg, c, session, path, now).log;
      SentIsInLog(c.payloads, sid, Ids(c.log.actions));
      LoadedExtendsStored(cfg, c, session, path, now);
      LacksOf(log, c.log, c.synced, SentCount(c.payloads, sid));
      SentWithinIff(c.payloads, sid, Ids(c.log.actions), Ids(log.actions));
    }
  }

  /** A page sends its log as it starts, which shows at once whether something was lost. */
  lemma FirstPayloadShows(c: Client, now: int)
    requires Cumulative(c.payloads)
    ensures Cumulative(Build(c, now).payloads) <==> LogExtendsPayloads(c)
    ensures LogExtendsPayloads(Build(c, now)) <==> LogExtendsPayloads(c)
  {
    var sent, k := Build(c, now), |c.payloads|;
    TouchKeepsIds(c.log, FocusMs(c, now), now);
    BuildExtends(c, c, now);
    assert Ids(sent.payloads[k].actions) == Ids(c.log.actions) && sent.payloads[..k] == c.payloads;
    if LogExtendsPayloads(c) {
      ExtendsKeepsCumulative(c, sent);
    }
    if Cumulative(sent.payloads) {
      forall p | p in c.payloads && p.sessionId == c.session.sessionId ensures Ids(p.actions) <= Ids(c.log.actions) {
        var i :| 0 <= i < k && c.payloads[i] == p;
        assert sent.payloads[i] == p && sent.payloads[i].sessionId == sent.payloads[k].sessionId;
      }
    }
  }

  /** The exact condition for a step: the log goes on extending what was sent if and only if the step is not a restore or
      a page load that lacks something sent since storage was last written or read. */
  lemma TabStepExtendsIff(cfg: HeartbeatConfig, c: Client, event: TabEvent, now: int)
    requires ClientInv(c) && LogExtendsPayloads(c) && TabCanHappen(c, event, now)
    ensures LogExtendsPayloads(TabStep(cfg, c, event, now)) <==> !TabLosesSent(cfg, c, event, now)
    ensures event.PageLoad? && TabLosesSent(cfg, c, event, now) ==> !Cumulative(TabStep(cfg, c, event, now).payloads)
  {
    match event {
      case InPage(e) =>
        TickKeepsInv(c, now);
        CumulativeUnlessSentIsLost(cfg, Tick(c, now), e, now);
      case PageLoad(session, path) =>
        LoadedSentIff(cfg, c, session, path, now);
        FirstPayloadShows(Loaded(cfg, c, session, path, now), now);
    }
  }

  ghost predicate TabLosesNothing(cfg: HeartbeatConfig, states: seq<Client>, events: seq<TabOccurrence>, n: nat)
    requires n <= |events| && n <= |states|
  {
    forall i | 0 <= i < n :: !TabLosesSent(cfg, states[i], events[i].event, events[i].now)
  }

  /** The payloads of a session are cumulative over all page loads of the tab, in every run in which no restore and no
      page load loses actions that were sent. */
  lemma {:induction false} TabPayloadsAreCumulative(cfg: HeartbeatConfig, states: seq<Client>, events: seq<TabOccurrence>, n: nat)
    requires IsTabRun(cfg, states, events) && n < |states| && TabLosesNothing(cfg, states, events, n)
    ensures LogExtendsPayloads(states[n])
  {
    if n == 0 {
      var session, saved, path, now :| GoodStart(session, saved) && states[0] == Start(cfg, session, saved, path, now);
      StartExtends(cfg, session, saved, path, now);
    } else {
      TabPayloadsAreCumulative(cfg, states, events, n - 1);
      TabKeepsInv(cfg, states, events, n - 1);
      TabStepExtendsIff(cfg, states[n - 1], events[n - 1].event, events[n - 1].now);
    }
  }

  /** Every restore is followed by a payload, as every page load is. */
  ghost predicate TabPayloadAfterRestore(events: seq<TabOccurrence>) {
    forall i | 0 <= i < |events| && events[i].event == InPage(PageShow(true)) ::
      i + 1 < |events| && events[i + 1].event == InPage(SendPayload)
  }

  lemma {:induction false} FirstTabLoss(cfg: HeartbeatConfig, states: seq<Client>, events: seq<TabOccurrence>, n: nat) returns (i: nat)
    requires n <= |events| && n <= |states| && !TabLosesNothing(cfg, states, events, n)
    ensures i < n && TabLosesNothing(cfg, states, events, i) && TabLosesSent(cfg, states[i], events[i].event, events[i].now)
  {
    if TabLosesNothing(cfg, states, events, n - 1) {
      i := n - 1;
    } else {
      i := FirstTabLoss(cfg, states, events, n - 1);
    }
  }

  lemma TabStepGrows(cfg: HeartbeatConfig, c: Client, event: TabEvent, now: int)
    ensures c.payloads <= TabStep(cfg, c, event, now).payloads
  {
    if event.InPage? {
      PayloadsOnlyGrow(cfg, c, event.event, now);
    }
  }

  lemma TabPayloadsGrow(cfg: HeartbeatConfig, states: seq<Client>, events: seq<TabOccurrence>)
    requires IsTabRun(cfg, states, events)
    ensures PayloadsGrow(states)
  {
    forall i | 0 <= i < |events| ensures states[i].payloads <= states[i + 1].payloads {
      TabStepGrows(cfg, states[i], events[i].event, events[i].now);
    }
  }

  lemma TabLossShows(cfg: HeartbeatConfig, states: seq<Client>, events: seq<TabOccurrence>, i: nat) returns (m: nat)
    requires IsTabRun(cfg, states, events) && TabPayloadAfterRestore(events) && i < |events|
    requires LogExtendsPayloads(states[i]) && TabLosesSent(cfg, states[i], events[i].event, events[i].now)
    ensures m < |states| && !Cumulative(states[m].payloads)
  {
    TabKeepsInv(cfg, states, events, i);
    TabStepExtendsIff(cfg, states[i], events[i].event, events[i].now);
    if events[i].event.PageLoad? {
      m := i + 1;
    } else {
      assert states[i + 1 + 1] == TabStep(cfg, states[i + 1], events[i + 1].event, events[i + 1].now);
      ActivateExtends(cfg, Tick(states[i], events[i].now), events[i].now);
      assert Cumulative(states[i + 1].payloads);
      NextPayloadIff(cfg, states[i + 1], events[i + 1].now);
      m := i + 2;
    }
  }

  /** The exact condition over all page loads of a tab: if every restore is followed by a payload, all payloads are
      cumulative if and only if no restore and no page load loses actions that were sent. */
  lemma TabCumulativeIff(cfg: HeartbeatConfig, states: seq<Client>, events: seq<TabOccurrence>)
    requires IsTabRun(cfg, states, events) && TabPayloadAfterRestore(events)
    ensures Cumulative(states[|events|].payloads) <==> TabLosesNothing(cfg, states, events, |events|)
  {
    if TabLosesNothing(cfg, states, events, |events|) {
      TabPayloadsAreCumulative(cfg, states, events, |events|);
    } else {
      var i := FirstTabLoss(cfg, states, events, |events|);
      TabPayloadsAreCumulative(cfg, states, events, i);
      var m := TabLossShows(cfg, states, events, i);
      TabPayloadsGrow(cfg, states, events);
      PayloadsStay(states, m, |events|);
      if Cumulative(states[|events|].payloads) { CumulativePrefix(states[m].payloads, states[|events|].payloads); }
    }
  }

  /** A page load loses nothing if storage has every action that was sent. */
  lemma LoadKeepsWhatIsStored(cfg: HeartbeatConfig, c: Client, session: Session, path: string, now: int)
    requires ClientInv(c) && LogExtendsPayloads(c) && SavedForSession(c)
    ensures SentWithin(c.payloads, c.session.sessionId, Ids(c.saved.value.log.actions)) ==> !LoadLosesSent(cfg, c, session, path, now)
  {
    if session.sessionId == c.session.sessionId {
      var sid, log := c.session.sessionId, Loaded(cfg, c, session, path, now).log;
      SentIsInLog(c.payloads, sid, Ids(c.log.actions));
      SentWithinIff(c.payloads, sid, Ids(c.log.actions), Ids(c.saved.value.log.actions));
      AddedPageExtends(c.saved.value.log, path, None, PageActiveMs(INITIAL_STATE, now), now);
      LoadedExtendsStored(cfg, c, session, path, now);
      LacksOf(log, c.log, c.synced, SentCount(c.payloads, sid));
    }
  }
}
