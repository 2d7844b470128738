/** Session time: how long the heartbeat was active since it was last restarted, and when it stops for good. */
module SdkSession {
  import opened EventTable
  import opened SessionPayload
  import opened SessionState
  import opened Heartbeat
  import opened Sdk

  // ---------------------------------------------------------------- the true session time

  /** Events that set the session's timers back to zero. */
  predicate RestartsHeartbeat(cfg: HeartbeatConfig, event: ClientEvent) {
    event.Resume? || event.Reset? || (event.Navigation? && cfg.resetOnNavigation)
  }

  /** The event wakes the heartbeat up. */
  predicate Wakes(c: Client, event: ClientEvent) {
    IsActivation(event) && !c.isPaused && !c.heartbeat.maxDurationReached
  }

  /** What an event throws away: an active heartbeat that is woken up forgets how long it has been active. */
  function Forgotten(c: Client, event: ClientEvent, now: int): int {
    if Wakes(c, event) && c.heartbeat.isActive then now - c.heartbeat.activeStartTime else 0
  }

  /** No restart happens from step m to step n, and the heartbeat was restarted right before: the run begins or step
      m - 1 did it. */
  ghost predicate SinceRestart(cfg: HeartbeatConfig, states: seq<Client>, events: seq<Occurrence>, m: nat, n: nat) {
    && IsRun(cfg, states, events) && m <= n < |states|
    && (m == 0 || RestartsHeartbeat(cfg, events[m - 1].event))
    && forall i | m <= i < n :: !RestartsHeartbeat(cfg, events[i].event)
  }

  /** The time from step m to step n during which the heartbeat was active. */
  ghost function ActiveBetween(states: seq<Client>, events: seq<Occurrence>, m: nat, n: nat): int
    requires m <= n <= |events| && n <= |states|
    decreases n
  {
    if n == m then 0
    else ActiveBetween(states, events, m, n - 1)
         + if states[n - 1].heartbeat.isActive then events[n - 1].now - states[n - 1].clock else 0
  }

  ghost function ForgottenBetween(states: seq<Client>, events: seq<Occurrence>, m: nat, n: nat): int
    requires m <= n <= |events| && n <= |states|
    decreases n
  {
    if n == m then 0
    else ForgottenBetween(states, events, m, n - 1) + Forgotten(states[n - 1], events[n - 1].event, events[n - 1].now)
  }

  /** Session time as it should be. */
  ghost function SessionTime(states: seq<Client>, events: seq<Occurrence>, m: nat, n: nat): int
    requires m <= n <= |events| && n <= |states|
  {
    ActiveBetween(states, events, m, n) - ForgottenBetween(states, events, m, n)
  }

  lemma StopKeepsSessionTime(h: HeartbeatState, now: int)
    ensures TotalActiveMs(StopHeartbeat(h, true, now), now) == TotalActiveMs(h, now)
  {
  }

  lemma ScheduleKeepsSessionTime(cfg: HeartbeatConfig, h: HeartbeatState, now: int)
    ensures TotalActiveMs(ScheduleNext(cfg, h, now), now) == TotalActiveMs(h, now)
  {
  }

  lemma WakingKeepsSessionTime(cfg: HeartbeatConfig, c: Client, event: ClientEvent, now: int)
    requires IsActivation(event)
    ensures TotalActiveMs(Step(cfg, c, event, now).heartbeat, now) == TotalActiveMs(c.heartbeat, now) - Forgotten(c, event, now)
  {
  }

  lemma StoppingKeepsSessionTime(cfg: HeartbeatConfig, c: Client, event: ClientEvent, now: int)
    requires IsActivityEvent(event) && !IsActivation(event)
    ensures TotalActiveMs(Step(cfg, c, event, now).heartbeat, now) == TotalActiveMs(c.heartbeat, now)
  {
    StopKeepsSessionTime(c.heartbeat, now);
  }

  lemma RequestKeepsSessionTime(cfg: HeartbeatConfig, c: Client, event: ClientEvent, now: int)
    requires !IsActivityEvent(event) && !RestartsHeartbeat(cfg, event)
    ensures TotalActiveMs(Step(cfg, c, event, now).heartbeat, now) == TotalActiveMs(c.heartbeat, now)
  {
    match event {
      case Ping(_, _) =>
        var h := c.heartbeat.(currentTierIndex := CurrentTier(cfg.tiers, TotalActiveMs(c.heartbeat, now)), lastPingTime := now);
        ScheduleKeepsSessionTime(cfg, h, now);
      case Pause => StopKeepsSessionTime(c.heartbeat, now);
      case _ =>
    }
  }

  lemma SessionTimeStep(cfg: HeartbeatConfig, c: Client, event: ClientEvent, now: int)
    requires !RestartsHeartbeat(cfg, event)
    ensures TotalActiveMs(Step(cfg, c, event, now).heartbeat, now) == TotalActiveMs(c.heartbeat, now) - Forgotten(c, event, now)
  {
    if IsActivation(event) {
      WakingKeepsSessionTime(cfg, c, event, now);
    } else if IsActivityEvent(event) {
      StoppingKeepsSessionTime(cfg, c, event, now);
    } else {
      RequestKeepsSessionTime(cfg, c, event, now);
    }
  }

  lemma StepSetsClock(cfg: HeartbeatConfig, c: Client, event: ClientEvent, now: int)
    ensures Step(cfg, c, event, now).clock == now
  {
  }

  lemma RestartIsZero(cfg: HeartbeatConfig, c: Client, event: ClientEvent, now: int)
    requires RestartsHeartbeat(cfg, event)
    ensures var h := Step(cfg, c, event, now).heartbeat;
            TotalActiveMs(h, now) == 0 && (h.maxDurationReached <==> TimeIsUp(cfg, 0)) && (h.maxDurationReached <==> !h.isActive)
  {
    assert RestartActivity(cfg, c, now).heartbeat == StartHeartbeat(cfg, ResetHeartbeatState(now), now);
  }

  lemma StartIsZero(cfg: HeartbeatConfig, states: seq<Client>, events: seq<Occurrence>)
    requires IsRun(cfg, states, events)
    ensures var h := states[0].heartbeat;
            TotalActiveMs(h, states[0].clock) == 0 && (h.maxDurationReached <==> TimeIsUp(cfg, 0)) && (h.maxDurationReached <==> !h.isActive)
    ensures !states[0].isPaused
  {
    var session, saved, path, now :| GoodStart(session, saved) && states[0] == Start(cfg, session, saved, path, now);
  }

  lemma FreshTimers(cfg: HeartbeatConfig, states: seq<Client>, events: seq<Occurrence>, m: nat)
    requires SinceRestart(cfg, states, events, m, m)
    ensures var h := states[m].heartbeat;
            TotalActiveMs(h, states[m].clock) == 0 && (h.maxDurationReached <==> TimeIsUp(cfg, 0)) && (h.maxDurationReached <==> !h.isActive)
  {
    if m == 0 {
      StartIsZero(cfg, states, events);
    } else {
      RestartIsZero(cfg, states[m - 1], events[m - 1].event, events[m - 1].now);
      StepSetsClock(cfg, states[m - 1], events[m - 1].event, events[m - 1].now);
    }
  }

  // ---------------------------------------------------------------- what a step does to the timers

  /** The limit has been reached, or the tier for that time has no interval. */
  predicate TimeIsUp(cfg: HeartbeatConfig, totalMs: int) {
    (cfg.maxDuration != 0 && totalMs >= cfg.maxDuration) || CurrentInterval(cfg, totalMs).None?
  }

  /** The event arms the next ping. */
  predicate Schedules(c: Client, event: ClientEvent) {
    Wakes(c, event) || (event.Ping? && event.visible && !c.isPaused && c.heartbeat.isActive)
  }

  /** Once stopped for good the heartbeat is not active. */
  ghost predicate StoppedIsInactive(c: Client) {
    c.heartbeat.maxDurationReached ==> !c.heartbeat.isActive
  }

  lemma ScheduleStopsIff(cfg: HeartbeatConfig, h: HeartbeatState, now: int)
    requires h.isActive && !h.maxDurationReached
    ensures ScheduleNext(cfg, h, now).maxDurationReached <==> TimeIsUp(cfg, TotalActiveMs(h, now))
    ensures ScheduleNext(cfg, h, now).isActive <==> !TimeIsUp(cfg, TotalActiveMs(h, now))
  {
  }

  lemma WakingSchedules(cfg: HeartbeatConfig, c: Client, event: ClientEvent, now: int)
    requires Wakes(c, event)
    ensures var h := Step(cfg, c, event, now).heartbeat;
            (h.maxDurationReached <==> TimeIsUp(cfg, TotalActiveMs(h, now))) && (h.isActive <==> !h.maxDurationReached)
  {
    var h := c.heartbeat.(activeStartTime := now, pageStartTime := now, isActive := true, lastPingTime := now);
    ScheduleStopsIff(cfg, h, now);
    ScheduleKeepsSessionTime(cfg, h, now);
    assert Step(cfg, c, event, now).heartbeat == ScheduleNext(cfg, h, now);
  }

  lemma PingSchedules(cfg: HeartbeatConfig, c: Client, event: ClientEvent, now: int)
    requires event.Ping? && Schedules(c, event) && StoppedIsInactive(c)
    ensures var h := Step(cfg, c, event, now).heartbeat;
            (h.maxDurationReached <==> TimeIsUp(cfg, TotalActiveMs(h, now))) && (h.isActive <==> !h.maxDurationReached)
  {
    var h := c.heartbeat.(currentTierIndex := CurrentTier(cfg.tiers, TotalActiveMs(c.heartbeat, now)), lastPingTime := now);
    ScheduleStopsIff(cfg, h, now);
    ScheduleKeepsSessionTime(cfg, h, now);
    assert Step(cfg, c, event, now).heartbeat == ScheduleNext(cfg, h, now);
  }

  predicate Sleeps(event: ClientEvent) {
    event.Blur? || event.VisibilityHidden? || event.Freeze? || event.Pause?
  }

  ghost predicate SameRun(before: HeartbeatState, after: HeartbeatState, event: ClientEvent) {
    && after.maxDurationReached == before.maxDurationReached
    && after.isActive == (before.isActive && !Sleeps(event))
  }

  lemma OtherActivityDoesNotSchedule(cfg: HeartbeatConfig, c: Client, event: ClientEvent, now: int)
    requires !Schedules(c, event) && IsActivityEvent(event)
    ensures SameRun(c.heartbeat, Step(cfg, c, event, now).heartbeat, event)
  {
  }

  lemma OtherRequestDoesNotSchedule(cfg: HeartbeatConfig, c: Client, event: ClientEvent, now: int)
    requires !Schedules(c, event) && !IsActivityEvent(event) && !RestartsHeartbeat(cfg, event)
    ensures SameRun(c.heartbeat, Step(cfg, c, event, now).heartbeat, event)
  {
  }

  lemma LimitStep(cfg: HeartbeatConfig, c: Client, event: ClientEvent, now: int)
    requires StoppedIsInactive(c) && !RestartsHeartbeat(cfg, event)
    ensures var h := Step(cfg, c, event, now).heartbeat;
            && (h.maxDurationReached <==> c.heartbeat.maxDurationReached || (Schedules(c, event) && TimeIsUp(cfg, TotalActiveMs(h, now))))
            && (h.isActive <==> !h.maxDurationReached && if Sleeps(event) then false else c.heartbeat.isActive || Schedules(c, event))
  {
    if Wakes(c, event) {
      WakingSchedules(cfg, c, event, now);
    } else if Schedules(c, event) {
      PingSchedules(cfg, c, event, now);
    } else if IsActivityEvent(event) {
      OtherActivityDoesNotSchedule(cfg, c, event, now);
    } else {
      OtherRequestDoesNotSchedule(cfg, c, event, now);
    }
  }

  // ---------------------------------------------------------------- from restart to restart

  /** What a step that restarts nothing does to the session time, the limit and the activity. */
  ghost predicate Linked(cfg: HeartbeatConfig, before: Client, e: Occurrence, after: Client) {
    var h, totalMs := after.heartbeat, TotalActiveMs(after.heartbeat, e.now);
    && after.clock == e.now
    && totalMs == TotalActiveMs(before.heartbeat, e.now) - Forgotten(before, e.event, e.now)
    && (StoppedIsInactive(before) ==>
          && (h.maxDurationReached <==> before.heartbeat.maxDurationReached || (Schedules(before, e.event) && TimeIsUp(cfg, totalMs)))
          && (h.isActive <==> !h.maxDurationReached
                              && if Sleeps(e.event) then false else before.heartbeat.isActive || Schedules(before, e.event)))
  }

  ghost predicate LinkedAt(cfg: HeartbeatConfig, states: seq<Client>, events: seq<Occurrence>, i: nat)
    requires i < |events| && i + 1 < |states|
  {
    Linked(cfg, states[i], events[i], states[i + 1])
  }

  ghost predicate Fresh(cfg: HeartbeatConfig, c: Client) {
    && TotalActiveMs(c.heartbeat, c.clock) == 0
    && (c.heartbeat.maxDurationReached <==> TimeIsUp(cfg, 0))
    && (c.heartbeat.maxDurationReached <==> !c.heartbeat.isActive)
  }

  ghost predicate Chain(cfg: HeartbeatConfig, states: seq<Client>, events: seq<Occurrence>, m: nat, n: nat) {
    && |states| == |events| + 1 && m <= n < |states|
    && Fresh(cfg, states[m])
    && forall i | m <= i < n :: LinkedAt(cfg, states, events, i)
  }

  lemma StepIsLinked(cfg: HeartbeatConfig, c: Client, e: Occurrence)
    requires !RestartsHeartbeat(cfg, e.event)
    ensures Linked(cfg, c, e, Step(cfg, c, e.event, e.now))
  {
    StepSetsClock(cfg, c, e.event, e.now);
    SessionTimeStep(cfg, c, e.event, e.now);
    if StoppedIsInactive(c) {
      LimitStep(cfg, c, e.event, e.now);
    }
  }

  lemma RunIsChain(cfg: HeartbeatConfig, states: seq<Client>, events: seq<Occurrence>, m: nat, n: nat)
    requires SinceRestart(cfg, states, events, m, n)
    ensures Chain(cfg, states, events, m, n)
  {
    FreshTimers(cfg, states, events, m);
    forall i | m <= i < n ensures LinkedAt(cfg, states, events, i) {
      StepIsLinked(cfg, states[i], events[i]);
      assert states[i + 1] == Step(cfg, states[i], events[i].event, events[i].now);
    }
  }

  // ---------------------------------------------------------------- the session ledger

  lemma {:induction false} SessionTimeAt(cfg: HeartbeatConfig, states: seq<Client>, events: seq<Occurrence>, m: nat, n: nat)
    requires Chain(cfg, states, events, m, n)
    ensures TotalActiveMs(states[n].heartbeat, states[n].clock) == SessionTime(states, events, m, n)
    decreases n
  {
    if n > m {
      SessionTimeAt(cfg, states, events, m, n - 1);
      assert LinkedAt(cfg, states, events, n - 1);
    }
  }

  /** Session ledger: the session time read at any moment, together with what was thrown away by waking an active
      heartbeat, is the time during which the heartbeat was active since it was restarted, over any number of pauses
      and page changes in between. */
  lemma SessionLedger(cfg: HeartbeatConfig, states: seq<Client>, events: seq<Occurrence>, m: nat, n: nat, now: int)
    requires SinceRestart(cfg, states, events, m, n)
    ensures TotalActiveMs(states[n].heartbeat, now) + ForgottenBetween(states, events, m, n)
            == ActiveBetween(states, events, m, n) + if states[n].heartbeat.isActive then now - states[n].clock else 0
  {
    RunIsChain(cfg, states, events, m, n);
    SessionTimeAt(cfg, states, events, m, n);
  }

  ghost predicate StartedBy(h: HeartbeatState, now: int) {
    h.isActive ==> h.activeStartTime <= now
  }

  lemma ActivityKeepsStart(cfg: HeartbeatConfig, c: Client, event: ClientEvent, now: int)
    requires StartedBy(c.heartbeat, now) && IsActivityEvent(event)
    ensures StartedBy(Step(cfg, c, event, now).heartbeat, now)
  {
  }

  lemma RequestKeepsStart(cfg: HeartbeatConfig, c: Client, event: ClientEvent, now: int)
    requires StartedBy(c.heartbeat, now) && !IsActivityEvent(event)
    ensures StartedBy(Step(cfg, c, event, now).heartbeat, now)
  {
  }

  lemma {:induction false} StartedBefore(cfg: HeartbeatConfig, states: seq<Client>, events: seq<Occurrence>, n: nat)
    requires IsRun(cfg, states, events) && n < |states|
    ensures StartedBy(states[n].heartbeat, states[n].clock)
  {
    if n == 0 {
      var session, saved, path, now :| GoodStart(session, saved) && states[0] == Start(cfg, session, saved, path, now);
    } else {
      StartedBefore(cfg, states, events, n - 1);
      var e := events[n - 1];
      assert CanHappen(states[n - 1], e.event, e.now);
      if IsActivityEvent(e.event) {
        ActivityKeepsStart(cfg, states[n - 1], e.event, e.now);
      } else {
        RequestKeepsStart(cfg, states[n - 1], e.event, e.now);
      }
      StepSetsClock(cfg, states[n - 1], events[n - 1].event, events[n - 1].now);
    }
  }

  ghost predicate ForgetsNothing(states: seq<Client>, events: seq<Occurrence>, m: nat, n: nat)
    requires m <= n <= |events| && n <= |states|
  {
    forall k | m <= k < n :: Forgotten(states[k], events[k].event, events[k].now) == 0
  }

  lemma ForgottenIsTime(cfg: HeartbeatConfig, states: seq<Client>, events: seq<Occurrence>, k: nat)
    requires IsRun(cfg, states, events) && k < |events|
    ensures Forgotten(states[k], events[k].event, events[k].now) >= 0
  {
    StartedBefore(cfg, states, events, k);
    assert CanHappen(states[k], events[k].event, events[k].now);
  }

  lemma {:induction false} SumIsZeroIff(states: seq<Client>, events: seq<Occurrence>, m: nat, n: nat)
    requires m <= n <= |events| && n <= |states|
    requires forall k | m <= k < n :: Forgotten(states[k], events[k].event, events[k].now) >= 0
    ensures ForgottenBetween(states, events, m, n) >= 0
    ensures ForgottenBetween(states, events, m, n) == 0 <==> ForgetsNothing(states, events, m, n)
    decreases n
  {
    if n > m {
      SumIsZeroIff(states, events, m, n - 1);
    }
  }

  /** Session time never over-counts, and is exact if and only if no active heartbeat was woken up after it had started. */
  lemma SessionTimeExactIff(cfg: HeartbeatConfig, states: seq<Client>, events: seq<Occurrence>, m: nat, n: nat)
    requires SinceRestart(cfg, states, events, m, n)
    ensures TotalActiveMs(states[n].heartbeat, states[n].clock) <= ActiveBetween(states, events, m, n)
    ensures TotalActiveMs(states[n].heartbeat, states[n].clock) == ActiveBetween(states, events, m, n)
            <==> ForgetsNothing(states, events, m, n)
  {
    RunIsChain(cfg, states, events, m, n);
    SessionTimeAt(cfg, states, events, m, n);
    forall k | m <= k < n ensures Forgotten(states[k], events[k].event, events[k].now) >= 0 {
      ForgottenIsTime(cfg, states, events, k);
    }
    SumIsZeroIff(states, events, m, n);
  }

  // ---------------------------------------------------------------- the time limit

  /** The session time is up at an event that arms the next ping. */
  ghost predicate UpAt(cfg: HeartbeatConfig, states: seq<Client>, events: seq<Occurrence>, m: nat, k: nat)
    requires m <= k < |events| && k + 1 <= |states|
  {
    Schedules(states[k], events[k].event) && TimeIsUp(cfg, SessionTime(states, events, m, k + 1))
  }

  ghost predicate WasUp(cfg: HeartbeatConfig, states: seq<Client>, events: seq<Occurrence>, m: nat, n: nat)
    requires m <= n <= |events| && n <= |states|
    decreases n
  {
    if n == m then TimeIsUp(cfg, 0) else WasUp(cfg, states, events, m, n - 1) || UpAt(cfg, states, events, m, n - 1)
  }

  lemma {:induction false} StoppedIffWasUp(cfg: HeartbeatConfig, states: seq<Client>, events: seq<Occurrence>, m: nat, n: nat)
    requires Chain(cfg, states, events, m, n)
    ensures states[n].heartbeat.maxDurationReached <==> WasUp(cfg, states, events, m, n)
    ensures StoppedIsInactive(states[n])
    decreases n
  {
    if n > m {
      StoppedIffWasUp(cfg, states, events, m, n - 1);
      SessionTimeAt(cfg, states, events, m, n);
      assert LinkedAt(cfg, states, events, n - 1);
    }
  }

  lemma {:induction false} WasUpIff(cfg: HeartbeatConfig, states: seq<Client>, events: seq<Occurrence>, m: nat, n: nat)
    requires m <= n <= |events| && n <= |states|
    ensures WasUp(cfg, states, events, m, n) <==> TimeIsUp(cfg, 0) || exists k :: m <= k < n && UpAt(cfg, states, events, m, k)
    decreases n
  {
    if n > m {
      WasUpIff(cfg, states, events, m, n - 1);
    }
  }

  /** The heartbeat is stopped for good at the first event that arms a ping when the session time has reached the limit,
      or a tier without an interval, and not before: it is stopped if and only if there was such an event since the
      restart, or the restart itself was one. Then it is inactive. */
  lemma StoppedIff(cfg: HeartbeatConfig, states: seq<Client>, events: seq<Occurrence>, m: nat, n: nat)
    requires SinceRestart(cfg, states, events, m, n)
    ensures states[n].heartbeat.maxDurationReached <==> TimeIsUp(cfg, 0) || exists k :: m <= k < n && UpAt(cfg, states, events, m, k)
    ensures states[n].heartbeat.maxDurationReached ==> !states[n].heartbeat.isActive
  {
    RunIsChain(cfg, states, events, m, n);
    StoppedIffWasUp(cfg, states, events, m, n);
    WasUpIff(cfg, states, events, m, n);
  }

  // ---------------------------------------------------------------- activity and pauses

  /** The last event since the restart that put the heartbeat to sleep was followed by one that woke it up. */
  ghost predicate Awake(states: seq<Client>, events: seq<Occurrence>, m: nat, n: nat)
    requires m <= n <= |events| && n <= |states|
    decreases n
  {
    n == m
    || if Sleeps(events[n - 1].event) then false
       else (IsActivation(events[n - 1].event) && !states[n - 1].isPaused) || Awake(states, events, m, n - 1)
  }

  lemma {:induction false} ActiveIffAwake(cfg: HeartbeatConfig, states: seq<Client>, events: seq<Occurrence>, m: nat, n: nat)
    requires Chain(cfg, states, events, m, n)
    ensures states[n].heartbeat.isActive <==> !states[n].heartbeat.maxDurationReached && Awake(states, events, m, n)
    decreases n
  {
    if n > m {
      ActiveIffAwake(cfg, states, events, m, n - 1);
      StoppedIffWasUp(cfg, states, events, m, n - 1);
      assert LinkedAt(cfg, states, events, n - 1);
    }
  }

  /** The heartbeat is active exactly while it has not been stopped for good and the last event that put it to sleep, by
      hiding, blurring, freezing or pausing, was followed by one that woke it up. */
  lemma ActiveIff(cfg: HeartbeatConfig, states: seq<Client>, events: seq<Occurrence>, m: nat, n: nat)
    requires SinceRestart(cfg, states, events, m, n)
    ensures states[n].heartbeat.isActive <==> !states[n].heartbeat.maxDurationReached && Awake(states, events, m, n)
  {
    RunIsChain(cfg, states, events, m, n);
    ActiveIffAwake(cfg, states, events, m, n);
  }

  /** Tracking is paused exactly if it was paused after it was last resumed. */
  ghost predicate PausedLast(events: seq<Occurrence>, n: nat)
    requires n <= |events|
    decreases n
  {
    n > 0 && (events[n - 1].event.Pause? || (!events[n - 1].event.Resume? && PausedLast(events, n - 1)))
  }

  lemma PauseStep(cfg: HeartbeatConfig, c: Client, event: ClientEvent, now: int)
    ensures Step(cfg, c, event, now).isPaused == (event.Pause? || (!event.Resume? && c.isPaused))
  {
  }

  ghost predicate PauseFollows(states: seq<Client>, events: seq<Occurrence>, i: nat)
    requires i < |events| && i + 1 < |states|
  {
    states[i + 1].isPaused == (events[i].event.Pause? || (!events[i].event.Resume? && states[i].isPaused))
  }

  lemma {:induction false} PausesFollow(states: seq<Client>, events: seq<Occurrence>, n: nat)
    requires |states| == |events| + 1 && n < |states| && !states[0].isPaused
    requires forall i | 0 <= i < n :: PauseFollows(states, events, i)
    ensures states[n].isPaused <==> PausedLast(events, n)
  {
    if n > 0 {
      PausesFollow(states, events, n - 1);
      assert PauseFollows(states, events, n - 1);
    }
  }

  lemma PausedIff(cfg: HeartbeatConfig, states: seq<Client>, events: seq<Occurrence>, n: nat)
    requires IsRun(cfg, states, events) && n < |states|
    ensures states[n].isPaused <==> PausedLast(events, n)
  {
    StartIsZero(cfg, states, events);
    forall i | 0 <= i < n ensures PauseFollows(states, events, i) {
      PauseStep(cfg, states[i], events[i].event, events[i].now);
    }
    PausesFollow(states, events, n);
  }

  /** A ping sends a payload if and only if tracking is not paused, the heartbeat is active and the page is visible; so
      none is sent while paused or asleep, or once the time is up. */
  lemma PingSendsIff(cfg: HeartbeatConfig, c: Client, visible: bool, scroll: Option<int>, now: int)
    ensures |Step(cfg, c, Ping(visible, scroll), now).payloads|
            == |c.payloads| + if visible && !c.isPaused && c.heartbeat.isActive then 1 else 0
  {
  }
}
