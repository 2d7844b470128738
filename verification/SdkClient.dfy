/** The SDK object: its handlers, each proved to be the step of the same name. */
module SdkClient {
  import opened EventTable
  import opened SessionPayload
  import opened SessionState
  import opened Heartbeat
  import opened Sdk
  import opened SdkFocus

  class StaminadsSdk {
    const config: HeartbeatConfig
    var sessionState: SessionStateStore
    var heartbeatState: HeartbeatState
    var isPaused: bool
    var flushed: bool
    /** What sessionStorage holds under the SDK's key. */
    var sessionStorage: Option<Saved>
    ghost var payloads: seq<Payload>
    ghost var ledger: Ledger
    ghost var clock: int
    ghost var synced: nat

    ghost function Model(): Client
      reads this, sessionState
    {
      Client(Session(sessionState.workspaceId, sessionState.sessionId, sessionState.createdAt, sessionState.attributes),
             sessionState.Model(), heartbeatState, isPaused, flushed, sessionStorage, payloads, ledger, clock, synced)
    }

    /** The synchronous tail of initialization: restore, first pageview, heartbeat, first payload. */
    constructor (config: HeartbeatConfig, session: Session, stored: Option<Saved>, path: string, now: int)
      ensures fresh(sessionState)
      ensures this.config == config && Model() == Start(config, session, stored, path, now)
    {
      this.config := config;
      var state := new SessionStateStore(session.workspaceId, session.sessionId, session.createdAt, session.attributes);
      sessionState := state;
      heartbeatState := INITIAL_STATE;
      isPaused, flushed, sessionStorage := false, false, stored;
      payloads, ledger, clock, synced := [], Ledger(now, 0, 0), now, 0;
      new;
      RestoreState();
      sessionState.AddPageviewAt(path, PageActiveMs(heartbeatState, now), now);
      heartbeatState := heartbeatState.(pageStartTime := now, activeStartTime := now);
      StartPinging(now);
      var payload := Send(now);
    }

    ghost method Advance(now: int)
      modifies this`clock, this`ledger
      ensures Model() == Tick(old(Model()), now)
    {
      ledger := ledger.(activeMs := ledger.activeMs + if heartbeatState.isActive then now - clock else 0);
      clock := now;
    }

    // -------------------------------------------------------------- session storage

    method PersistState(stored: bool)
      modifies this`sessionStorage, this`synced
      ensures Model() == SavePoint(old(Model()), stored)
    {
      if stored {
        sessionStorage := Some(Saved(sessionState.sessionId, Log(sessionState.actions, sessionState.currentPageIndex)));
        synced := |sessionState.actions|;
      }
    }

    method RestoreState()
      modifies this`sessionStorage, this`synced, sessionState
      ensures Model() == Restore(old(Model()))
    {
      if sessionStorage.None? { return; }
      if sessionStorage.value.sessionId != sessionState.sessionId {
        sessionStorage := None;
        return;
      }
      sessionState.Restore(sessionStorage.value.log);
      synced := |sessionState.actions|;
    }

    /** A step of the environment: another document of the tab writes to sessionStorage. */
    method WrittenElsewhere(other: Saved, now: int)
      modifies this
      ensures sessionState == old(sessionState) && Model() == Step(config, old(Model()), Elsewhere(other), now)
    {
      Advance(now);
      sessionStorage := Some(other);
      if other.sessionId != sessionState.sessionId { synced := 0; }
    }

    /** Building a payload, as every send does before it awaits the network. */
    method Send(now: int) returns (payload: Payload)
      modifies this`payloads, sessionState
      ensures Model() == Build(old(Model()), now)
      ensures Model().payloads == old(Model()).payloads + [payload]
    {
      payload := sessionState.BuildPayload(PageActiveMs(heartbeatState, now), now);
      payloads := payloads + [payload];
    }

    // -------------------------------------------------------------- heartbeat

    method Stop(accumulateTime: bool, now: int)
      modifies this`heartbeatState
      ensures heartbeatState == StopHeartbeat(old(heartbeatState), accumulateTime, now)
    {
      if accumulateTime && heartbeatState.isActive {
        var activeTime := now - heartbeatState.activeStartTime;
        heartbeatState := heartbeatState.(accumulatedActiveMs := heartbeatState.accumulatedActiveMs + activeTime);
        var pageTime := now - heartbeatState.pageStartTime;
        heartbeatState := heartbeatState.(pageActiveMs := heartbeatState.pageActiveMs + pageTime);
      }
      heartbeatState := heartbeatState.(isActive := false);
    }

    method CheckAndUpdateMaxDuration(now: int) returns (reached: bool)
      modifies this`heartbeatState
      ensures reached == (config.maxDuration != 0 && TotalActiveMs(old(heartbeatState), now) >= config.maxDuration)
      ensures heartbeatState == if reached then old(heartbeatState).(maxDurationReached := true) else old(heartbeatState)
    {
      if config.maxDuration == 0 { return false; }
      if TotalActiveMs(heartbeatState, now) >= config.maxDuration {
        heartbeatState := heartbeatState.(maxDurationReached := true);
        return true;
      }
      return false;
    }

    /** `delay` is that of the timer it sets, if any. */
    method ScheduleNextHeartbeat(now: int) returns (delay: Option<int>)
      modifies this`heartbeatState
      ensures heartbeatState == ScheduleNext(config, old(heartbeatState), now)
      ensures delay == PingDelay(config, heartbeatState, now)
    {
      if !heartbeatState.isActive { return None; }
      var reached := CheckAndUpdateMaxDuration(now);
      if reached {
        Stop(true, now);
        return None;
      }
      var tier := GetCurrentTier(config.tiers, TotalActiveMs(heartbeatState, now));
      var interval := if tier >= |config.tiers| then None
                      else if config.isMobile then config.tiers[tier].mobileInterval
                      else config.tiers[tier].desktopInterval;
      if interval.None? {
        heartbeatState := heartbeatState.(maxDurationReached := true);
        Stop(true, now);
        return None;
      }
      var targetTime := heartbeatState.lastPingTime + interval.value;
      return Some(Max(0, targetTime - now));
    }

    method StartPinging(now: int)
      modifies this`heartbeatState
      ensures heartbeatState == StartHeartbeat(config, old(heartbeatState), now)
    {
      if heartbeatState.maxDurationReached { return; }
      Stop(false, now);
      heartbeatState := heartbeatState.(activeStartTime := now, isActive := true, lastPingTime := now);
      var delay := ScheduleNextHeartbeat(now);
    }

    method ResumePinging(now: int)
      modifies this`heartbeatState, this`ledger
      ensures Model() == ResumeActivity(config, old(Model()), now)
    {
      if heartbeatState.maxDurationReached { return; }
      if heartbeatState.isActive {
        ledger := ledger.(discardedMs := ledger.discardedMs + (now - heartbeatState.pageStartTime));
      }
      heartbeatState := heartbeatState.(activeStartTime := now, pageStartTime := now, isActive := true, lastPingTime := now);
      var delay := ScheduleNextHeartbeat(now);
    }

    method ResetHeartbeat(now: int)
      modifies this`heartbeatState
      ensures heartbeatState == ResetHeartbeatState(now)
    {
      Stop(false, now);
      heartbeatState := HeartbeatState(0, 0, false, false, 0, 0, 0, now);
    }

    method RestartPinging(now: int)
      modifies this`heartbeatState, this`ledger
      ensures Model() == RestartActivity(config, old(Model()), now)
    {
      ResetHeartbeat(now);
      StartPinging(now);
      ledger := Ledger(now, 0, 0);
    }

    method ResetPageTimer(now: int)
      modifies this`heartbeatState, this`ledger
      ensures Model() == old(Model()).(heartbeat := ResetPageActiveTime(old(heartbeatState), now), ledger := Ledger(now, 0, 0))
    {
      heartbeatState := heartbeatState.(pageActiveMs := 0);
      heartbeatState := heartbeatState.(pageStartTime := now);
      ledger := Ledger(now, 0, 0);
    }

    // -------------------------------------------------------------- browser events

    method WakeUp(now: int)
      modifies this`flushed, this`heartbeatState, this`ledger
      ensures Model() == Activate(config, old(Model()), now)
    {
      flushed := false;
      if !isPaused && !heartbeatState.maxDurationReached {
        ResumePinging(now);
      }
    }

    method FlushOnceOnly(scroll: Option<int>, stored: bool, now: int)
      modifies this`flushed, this`payloads, this`sessionStorage, this`synced, sessionState
      ensures Model() == FlushOnce(old(Model()), scroll, stored, now)
    {
      if flushed { return; }
      flushed := true;
      if scroll.Some? { sessionState.UpdateScrollTo(scroll.value); }
      sessionState.FinalizeOnUnload(PageActiveMs(heartbeatState, now), now);
      var payload := Send(now);
      PersistState(stored);
    }

    method OnFocus(now: int)
      modifies this
      ensures sessionState == old(sessionState) && Model() == Step(config, old(Model()), Focus, now)
    {
      Advance(now);
      WakeUp(now);
    }

    method OnResume(now: int)
      modifies this
      ensures sessionState == old(sessionState) && Model() == Step(config, old(Model()), LifecycleResume, now)
    {
      Advance(now);
      WakeUp(now);
    }

    method OnVisibilityChange(hidden: bool, scroll: Option<int>, stored: bool, now: int)
      modifies this, sessionState
      ensures sessionState == old(sessionState)
      ensures Model() == Step(config, old(Model()), if hidden then VisibilityHidden(scroll, stored) else VisibilityVisible, now)
    {
      Advance(now);
      if hidden {
        Stop(true, now);
        FlushOnceOnly(scroll, stored, now);
      } else {
        WakeUp(now);
      }
    }

    method OnBlur(scroll: Option<int>, stored: bool, now: int)
      modifies this, sessionState
      ensures sessionState == old(sessionState) && Model() == Step(config, old(Model()), Blur(scroll, stored), now)
    {
      Advance(now);
      Stop(true, now);
      FlushOnceOnly(scroll, stored, now);
    }

    method OnFreeze(scroll: Option<int>, stored: bool, now: int)
      modifies this, sessionState
      ensures sessionState == old(sessionState) && Model() == Step(config, old(Model()), Freeze(scroll, stored), now)
    {
      Advance(now);
      Stop(true, now);
      FlushOnceOnly(scroll, stored, now);
    }

    method OnUnload(scroll: Option<int>, stored: bool, now: int)
      modifies this, sessionState
      ensures sessionState == old(sessionState) && Model() == Step(config, old(Model()), Unload(scroll, stored), now)
    {
      Advance(now);
      FlushOnceOnly(scroll, stored, now);
    }

    method OnPageShow(persisted: bool, now: int)
      modifies this, sessionState
      ensures sessionState == old(sessionState) && Model() == Step(config, old(Model()), PageShow(persisted), now)
    {
      Advance(now);
      if persisted {
        WakeUp(now);
        RestoreState();
      }
    }

    method OnNavigation(path: string, scroll: Option<int>, stored: bool, now: int)
      modifies this, sessionState
      ensures sessionState == old(sessionState) && Model() == Step(config, old(Model()), Navigation(path, scroll, stored), now)
    {
      Advance(now);
      if scroll.Some? { sessionState.UpdateScrollTo(scroll.value); }
      sessionState.AddPageviewAt(path, PageActiveMs(heartbeatState, now), now);
      ResetPageTimer(now);
      if config.resetOnNavigation {
        RestartPinging(now);
      }
      PersistState(stored);
    }

    /** The ping timer's callback. */
    method OnPingTimer(visible: bool, scroll: Option<int>, now: int)
      modifies this, sessionState
      ensures sessionState == old(sessionState) && Model() == Step(config, old(Model()), Ping(visible, scroll), now)
    {
      Advance(now);
      if !isPaused && heartbeatState.isActive && visible {
        var tier := GetCurrentTier(config.tiers, TotalActiveMs(heartbeatState, now));
        heartbeatState := heartbeatState.(currentTierIndex := tier);
        if scroll.Some? { sessionState.UpdateScrollTo(scroll.value); }
        var payload := Send(now);
        heartbeatState := heartbeatState.(lastPingTime := now);
        var delay := ScheduleNextHeartbeat(now);
      }
    }

    // -------------------------------------------------------------- public API

    method TrackPageViewAt(path: string, scroll: Option<int>, stored: bool, now: int)
      modifies this, sessionState
      ensures sessionState == old(sessionState) && Model() == Step(config, old(Model()), TrackPageView(path, scroll, stored), now)
    {
      Advance(now);
      if scroll.Some? { sessionState.UpdateScrollTo(scroll.value); }
      sessionState.AddPageviewAt(path, PageActiveMs(heartbeatState, now), now);
      ResetPageTimer(now);
      PersistState(stored);
    }

    method TrackGoalAt(name: string, value: Option<real>, properties: map<string, string>, now: int) returns (payload: Payload)
      modifies this, sessionState
      ensures sessionState == old(sessionState) && Model() == Step(config, old(Model()), TrackGoal(name, value, properties), now)
      ensures Model().payloads == old(Model()).payloads + [payload]
    {
      Advance(now);
      var added := sessionState.AddGoalAt(name, value, properties, now);
      payload := Send(now);
    }

    method PauseTracking(now: int)
      modifies this
      ensures sessionState == old(sessionState) && Model() == Step(config, old(Model()), Pause, now)
    {
      Advance(now);
      isPaused := true;
      Stop(true, now);
    }

    method ResumeTracking(now: int)
      modifies this
      ensures sessionState == old(sessionState) && Model() == Step(config, old(Model()), Resume, now)
    {
      Advance(now);
      isPaused := false;
      RestartPinging(now);
    }

    method ResetSession(session: Session, path: string, now: int) returns (payload: Payload)
      modifies this
      ensures fresh(sessionState) && Model() == Step(config, old(Model()), Reset(session, path), now)
      ensures Model().payloads == old(Model()).payloads + [payload]
    {
      Advance(now);
      sessionState := new SessionStateStore(session.workspaceId, session.sessionId, session.createdAt, session.attributes);
      synced := 0;
      sessionState.AddPageviewAt(path, PageActiveMs(heartbeatState, now), now);
      RestartPinging(now);
      payload := Send(now);
    }

    /** The loop of `getFocusDuration`. */
    method GetFocusDuration(now: int) returns (total: int)
      ensures total == FocusSum(sessionState.actions, CurrentNumber(sessionState.Model()), PageActiveMs(heartbeatState, now))
    {
      var actions := sessionState.actions;
      var currentPage: Option<int> := None;
      if sessionState.currentPageIndex.Some? {
        var index := sessionState.currentPageIndex.value;
        if index < |actions| && actions[index].Pageview? {
          currentPage := Some(actions[index].pageNumber);
        }
      }
      total := 0;
      for i := 0 to |actions|
        invariant total == FocusSum(actions[..i], currentPage, PageActiveMs(heartbeatState, now))
      {
        assert actions[..i + 1][..i] == actions[..i];
        if actions[i].Pageview? {
          if currentPage == Some(actions[i].pageNumber) {
            total := total + PageActiveMs(heartbeatState, now);
          } else {
            total := total + actions[i].duration;
          }
        }
      }
      assert actions[..|actions|] == actions;
    }
  }
}
