/** The heartbeat timers of the SDK: session active time, page focus time and the ping tiers. */
module Heartbeat {
  import opened EventTable

  const MIN_HEARTBEAT_INTERVAL := 5000

  /** A null interval stops the heartbeat. */
  datatype Tier = Tier(after: int, desktopInterval: Option<int>, mobileInterval: Option<int>)

  datatype HeartbeatConfig = HeartbeatConfig(
    tiers: seq<Tier>,
    maxDuration: int,
    resetOnNavigation: bool,
    isMobile: bool)

  datatype HeartbeatState = HeartbeatState(
    activeStartTime: int,
    accumulatedActiveMs: int,
    isActive: bool,
    maxDurationReached: bool,
    lastPingTime: int,
    currentTierIndex: nat,
    pageActiveMs: int,
    pageStartTime: int)

  const INITIAL_STATE := HeartbeatState(0, 0, false, false, 0, 0, 0, 0)

  const DEFAULT_HEARTBEAT_TIERS := [
    Tier(0, Some(10000), Some(7000)),
    Tier(180000, Some(20000), Some(14000)),
    Tier(300000, Some(30000), Some(21000))]

  // ---------------------------------------------------------------- tiers

  function InsertTier(sorted: seq<Tier>, t: Tier): (r: seq<Tier>)
    ensures |r| == |sorted| + 1
  {
    if sorted == [] then [t]
    else if sorted[|sorted| - 1].after <= t.after then sorted + [t]
    else InsertTier(sorted[..|sorted| - 1], t) + [sorted[|sorted| - 1]]
  }

  /** Stable sort by `after`. */
  function SortTiers(tiers: seq<Tier>): (r: seq<Tier>)
    ensures |r| == |tiers|
  {
    if tiers == [] then [] else InsertTier(SortTiers(tiers[..|tiers| - 1]), tiers[|tiers| - 1])
  }

  function AtLeastMinimum(interval: Option<int>): Option<int> {
    if interval.Some? && interval.value < MIN_HEARTBEAT_INTERVAL then Some(MIN_HEARTBEAT_INTERVAL) else interval
  }

  function Clamp(t: Tier): Tier {
    t.(desktopInterval := AtLeastMinimum(t.desktopInterval), mobileInterval := AtLeastMinimum(t.mobileInterval))
  }

  function ClampAll(tiers: seq<Tier>): (r: seq<Tier>)
    ensures |r| == |tiers| && forall i | 0 <= i < |r| :: r[i] == Clamp(tiers[i])
  {
    if tiers == [] then [] else [Clamp(tiers[0])] + ClampAll(tiers[1..])
  }

  function ValidateTiers(tiers: seq<Tier>): seq<Tier> {
    if tiers == [] then DEFAULT_HEARTBEAT_TIERS
    else ClampAll(FromZero(SortTiers(tiers)))
  }

  /** Makes sure the first tier starts at 0. */
  function FromZero(sorted: seq<Tier>): seq<Tier>
    requires sorted != []
  {
    if sorted[0].after != 0 then [Tier(0, Some(10000), Some(7000))] + sorted else sorted
  }

  ghost predicate Ascending(tiers: seq<Tier>) {
    forall i, j | 0 <= i < j < |tiers| :: tiers[i].after <= tiers[j].after
  }

  lemma {:induction false} InsertTierPermutes(sorted: seq<Tier>, t: Tier)
    ensures multiset(InsertTier(sorted, t)) == multiset(sorted) + multiset{t}
  {
    if sorted != [] {
      var n := |sorted| - 1;
      assert sorted == sorted[..n] + [sorted[n]];
      InsertTierPermutes(sorted[..n], t);
    }
  }

  lemma {:induction false} InsertTierSorts(sorted: seq<Tier>, t: Tier)
    requires Ascending(sorted)
    ensures Ascending(InsertTier(sorted, t))
    ensures forall i | 0 <= i < |InsertTier(sorted, t)| :: InsertTier(sorted, t)[i] in sorted || InsertTier(sorted, t)[i] == t
  {
    if sorted != [] {
      var n := |sorted| - 1;
      if sorted[n].after > t.after {
        InsertTierSorts(sorted[..n], t);
      }
    }
  }

  lemma {:induction false} SortTiersSorts(tiers: seq<Tier>)
    ensures Ascending(SortTiers(tiers)) && multiset(SortTiers(tiers)) == multiset(tiers)
  {
    if tiers != [] {
      var n := |tiers| - 1;
      assert tiers == tiers[..n] + [tiers[n]];
      SortTiersSorts(tiers[..n]);
      InsertTierSorts(SortTiers(tiers[..n]), tiers[n]);
      InsertTierPermutes(SortTiers(tiers[..n]), tiers[n]);
    }
  }

  lemma SameTiers(tiers: seq<Tier>)
    ensures forall t :: t in tiers <==> t in SortTiers(tiers)
  {
    SortTiersSorts(tiers);
    forall t ensures t in tiers <==> t in SortTiers(tiers) {
      assert t in tiers <==> t in multiset(tiers);
      assert t in SortTiers(tiers) <==> t in multiset(SortTiers(tiers));
    }
  }

  lemma FromZeroAscending(sorted: seq<Tier>)
    requires sorted != [] && Ascending(sorted)
    ensures FromZero(sorted)[0].after == 0
    ensures Ascending(FromZero(sorted)) <==> sorted[0].after >= 0
  {
    var r := FromZero(sorted);
    if sorted[0].after < 0 {
      assert r[1].after < r[0].after;
    } else if sorted[0].after > 0 {
      forall i, j | 0 <= i < j < |r| ensures r[i].after <= r[j].after {
        assert sorted[0].after <= sorted[j - 1].after;
      }
    }
  }

  lemma FirstIsLowest(tiers: seq<Tier>)
    requires tiers != []
    ensures SortTiers(tiers)[0].after >= 0 <==> forall t | t in tiers :: t.after >= 0
  {
    var sorted := SortTiers(tiers);
    SortTiersSorts(tiers);
    SameTiers(tiers);
    assert sorted[0] in sorted;
    forall t | t in tiers ensures sorted[0].after <= t.after {
      var i :| 0 <= i < |sorted| && sorted[i] == t;
      assert i > 0 ==> sorted[0].after <= sorted[i].after;
    }
  }

  lemma ClampKeepsOrder(tiers: seq<Tier>)
    ensures Ascending(ClampAll(tiers)) <==> Ascending(tiers)
  {
    assert forall i | 0 <= i < |tiers| :: ClampAll(tiers)[i].after == tiers[i].after;
  }

  ghost predicate NotTooFast(interval: Option<int>) {
    interval.Some? ==> interval.value >= MIN_HEARTBEAT_INTERVAL
  }

  lemma ClampedNotTooFast(tiers: seq<Tier>, i: nat)
    requires i < |tiers|
    ensures NotTooFast(ClampAll(tiers)[i].desktopInterval) && NotTooFast(ClampAll(tiers)[i].mobileInterval)
  {
  }

  function StartingAt(tiers: seq<Tier>, after: int): seq<Tier> {
    if tiers == [] then []
    else StartingAt(tiers[..|tiers| - 1], after) + if tiers[|tiers| - 1].after == after then [tiers[|tiers| - 1]] else []
  }

  lemma {:induction false} StartingAtNone(tiers: seq<Tier>, after: int)
    requires forall i | 0 <= i < |tiers| :: tiers[i].after != after
    ensures StartingAt(tiers, after) == []
  {
    if tiers != [] { StartingAtNone(tiers[..|tiers| - 1], after); }
  }

  lemma {:induction false} InsertTierIsStable(sorted: seq<Tier>, t: Tier, after: int)
    requires Ascending(sorted)
    ensures StartingAt(InsertTier(sorted, t), after) == StartingAt(sorted, after) + if t.after == after then [t] else []
  {
    if sorted != [] {
      var n := |sorted| - 1;
      if sorted[n].after <= t.after {
        assert (sorted + [t])[..|sorted|] == sorted;
      } else {
        InsertTierIsStable(sorted[..n], t, after);
        var r := InsertTier(sorted[..n], t);
        assert (r + [sorted[n]])[..|r|] == r;
      }
    }
  }

  /** Tiers that start at the same time keep their order. */
  lemma {:induction false} SortTiersIsStable(tiers: seq<Tier>, after: int)
    ensures StartingAt(SortTiers(tiers), after) == StartingAt(tiers, after)
  {
    if tiers != [] {
      var n := |tiers| - 1;
      SortTiersIsStable(tiers[..n], after);
      SortTiersSorts(tiers[..n]);
      InsertTierIsStable(SortTiers(tiers[..n]), tiers[n], after);
    }
  }

  /** An interval is raised to the minimum and otherwise kept; null stays null. */
  ghost predicate Raises(given: Option<int>, used: Option<int>) {
    match given
    case None => used == None
    case Some(ms) => used.Some? && used.value >= ms && used.value >= 5000 && (used.value == ms || used.value == 5000)
  }

  ghost predicate Normalizes(given: Tier, used: Tier) {
    used.after == given.after && Raises(given.desktopInterval, used.desktopInterval) && Raises(given.mobileInterval, used.mobileInterval)
  }

  lemma ClampNormalizes(tiers: seq<Tier>, i: nat)
    requires i < |tiers|
    ensures Normalizes(tiers[i], ClampAll(tiers)[i])
  {
  }

  /** Every configured tier is kept, sorted, with its own intervals for desktop and mobile, behind one more tier with the
      first default intervals if none of them is the first to start at 0. */
  lemma TiersAreKept(tiers: seq<Tier>)
    requires tiers != []
    ensures var r, sorted := ValidateTiers(tiers), SortTiers(tiers);
            && (sorted[0].after == 0 ==> |r| == |sorted| && forall i | 0 <= i < |sorted| :: Normalizes(sorted[i], r[i]))
            && (sorted[0].after != 0 ==>
                  && |r| == |sorted| + 1 && r[0] == Tier(0, Some(10000), Some(7000))
                  && forall i | 0 <= i < |sorted| :: Normalizes(sorted[i], r[i + 1]))
  {
    var sorted := SortTiers(tiers);
    var unclamped := FromZero(sorted);
    forall i | 0 <= i < |unclamped| ensures Normalizes(unclamped[i], ClampAll(unclamped)[i]) {
      ClampNormalizes(unclamped, i);
    }
  }

  /** Normalized tiers, also the default ones for an empty list, start at 0 and never ping faster than the minimum; they
      are in ascending order exactly when no tier starts at a negative time. */
  lemma ValidatedTiers(tiers: seq<Tier>)
    ensures var r := ValidateTiers(tiers);
            && r != [] && r[0].after == 0
            && (forall i | 0 <= i < |r| :: NotTooFast(r[i].desktopInterval) && NotTooFast(r[i].mobileInterval))
            && (Ascending(r) <==> forall t | t in tiers :: t.after >= 0)
  {
    if tiers != [] {
      var sorted := SortTiers(tiers);
      SortTiersSorts(tiers);
      FromZeroAscending(sorted);
      FirstIsLowest(tiers);
      var unclamped := FromZero(sorted);
      ClampKeepsOrder(unclamped);
      forall i | 0 <= i < |unclamped|
        ensures NotTooFast(ClampAll(unclamped)[i].desktopInterval) && NotTooFast(ClampAll(unclamped)[i].mobileInterval)
      {
        ClampedNotTooFast(unclamped, i);
      }
      assert ValidateTiers(tiers) == ClampAll(unclamped);
    }
  }

  /** The index the tier loop of `getCurrentTier` stops at. */
  function CurrentTier(tiers: seq<Tier>, totalMs: int): nat {
    if tiers == [] || tiers[0].after > totalMs then 0 else Reached(tiers, totalMs) - 1
  }

  /** The number of leading tiers that have been reached. */
  function Reached(tiers: seq<Tier>, totalMs: int): (n: nat)
    ensures n <= |tiers|
    ensures forall i | 0 <= i < n :: tiers[i].after <= totalMs
    ensures n < |tiers| ==> tiers[n].after > totalMs
  {
    if tiers == [] || tiers[0].after > totalMs then 0 else 1 + Reached(tiers[1..], totalMs)
  }

  /** On ascending tiers that start at 0 it is the last tier that has been reached. */
  lemma CurrentTierIsHighest(tiers: seq<Tier>, totalMs: int)
    requires tiers != [] && tiers[0].after == 0 && Ascending(tiers) && totalMs >= 0
    ensures var k := CurrentTier(tiers, totalMs);
            k < |tiers| && forall i | 0 <= i < |tiers| :: tiers[i].after <= totalMs <==> i <= k
  {
    var n := Reached(tiers, totalMs);
    if n < |tiers| {
      forall i | n <= i < |tiers| ensures tiers[i].after > totalMs {
        assert tiers[n].after <= tiers[i].after;
      }
    }
  }

  method GetCurrentTier(tiers: seq<Tier>, totalActiveMs: int) returns (index: nat)
    ensures index == CurrentTier(tiers, totalActiveMs)
  {
    index := 0;
    var i := 0;
    while i < |tiers|
      invariant 0 <= i <= |tiers|
      invariant i <= Reached(tiers, totalActiveMs)
      invariant index == if i == 0 then 0 else i - 1
    {
      if totalActiveMs >= tiers[i].after {
        index := i;
      } else {
        break;
      }
      i := i + 1;
    }
  }

  // ---------------------------------------------------------------- timers

  function TotalActiveMs(h: HeartbeatState, now: int): int {
    h.accumulatedActiveMs + if h.isActive then now - h.activeStartTime else 0
  }

  function PageActiveMs(h: HeartbeatState, now: int): int {
    h.pageActiveMs + if h.isActive then now - h.pageStartTime else 0
  }

  function StopHeartbeat(h: HeartbeatState, accumulate: bool, now: int): HeartbeatState {
    if accumulate && h.isActive then
      h.(accumulatedActiveMs := TotalActiveMs(h, now), pageActiveMs := PageActiveMs(h, now), isActive := false)
    else h.(isActive := false)
  }

  function CurrentInterval(cfg: HeartbeatConfig, totalMs: int): Option<int> {
    var k := CurrentTier(cfg.tiers, totalMs);
    if k < |cfg.tiers| then (if cfg.isMobile then cfg.tiers[k].mobileInterval else cfg.tiers[k].desktopInterval) else None
  }

  /** The interval is that of the last tier that has been reached, for the kind of device in use. */
  lemma IntervalOfTier(cfg: HeartbeatConfig, totalMs: int, k: nat)
    requires cfg.tiers != [] && cfg.tiers[0].after == 0 && Ascending(cfg.tiers) && totalMs >= 0
    requires k < |cfg.tiers| && cfg.tiers[k].after <= totalMs && (k + 1 < |cfg.tiers| ==> cfg.tiers[k + 1].after > totalMs)
    ensures cfg.isMobile ==> CurrentInterval(cfg, totalMs) == cfg.tiers[k].mobileInterval
    ensures !cfg.isMobile ==> CurrentInterval(cfg, totalMs) == cfg.tiers[k].desktopInterval
  {
    CurrentTierIsHighest(cfg.tiers, totalMs);
    var n := CurrentTier(cfg.tiers, totalMs);
    assert k <= n;
    if k + 1 < |cfg.tiers| { assert k + 1 > n; }
  }

  /** Arms the next ping, or stops for good when the time limit or a null interval says so. */
  function ScheduleNext(cfg: HeartbeatConfig, h: HeartbeatState, now: int): HeartbeatState {
    if !h.isActive then h
    else if (cfg.maxDuration != 0 && TotalActiveMs(h, now) >= cfg.maxDuration)
            || CurrentInterval(cfg, TotalActiveMs(h, now)).None?
    then StopHeartbeat(h.(maxDurationReached := true), true, now)
    else h
  }

  /** How long the timer of the next ping runs: to one interval after the last ping, if that is still ahead. */
  function PingDelay(cfg: HeartbeatConfig, h: HeartbeatState, now: int): Option<int> {
    var interval := CurrentInterval(cfg, TotalActiveMs(h, now));
    if !h.isActive || interval.None? then None
    else Some(if h.lastPingTime + interval.value > now then h.lastPingTime + interval.value - now else 0)
  }

  /** Pings keep their distance: with normalized tiers the next one comes no sooner than the minimum interval after the
      last, and exactly one interval after it unless that moment has passed. */
  lemma PingsKeepDistance(cfg: HeartbeatConfig, tiers: seq<Tier>, h: HeartbeatState, now: int)
    requires cfg.tiers == ValidateTiers(tiers) && PingDelay(cfg, h, now).Some?
    ensures var delay, interval := PingDelay(cfg, h, now).value, CurrentInterval(cfg, TotalActiveMs(h, now));
            && delay >= 0 && interval.Some? && interval.value >= MIN_HEARTBEAT_INTERVAL
            && now + delay >= h.lastPingTime + interval.value
            && (delay > 0 ==> now + delay == h.lastPingTime + interval.value)
  {
    ValidatedTiers(tiers);
  }

  function StartHeartbeat(cfg: HeartbeatConfig, h: HeartbeatState, now: int): HeartbeatState {
    if h.maxDurationReached then h
    else ScheduleNext(cfg, h.(activeStartTime := now, isActive := true, lastPingTime := now), now)
  }

  function ResumeHeartbeat(cfg: HeartbeatConfig, h: HeartbeatState, now: int): HeartbeatState {
    if h.maxDurationReached then h
    else ScheduleNext(cfg, h.(activeStartTime := now, pageStartTime := now, isActive := true, lastPingTime := now), now)
  }

  function ResetHeartbeatState(now: int): HeartbeatState {
    HeartbeatState(0, 0, false, false, 0, 0, 0, now)
  }

  function ResetPageActiveTime(h: HeartbeatState, now: int): HeartbeatState {
    h.(pageActiveMs := 0, pageStartTime := now)
  }

  /** Scheduling never changes the page focus time read at that moment, also when it stops the heartbeat. */
  lemma ScheduleKeepsPageTime(cfg: HeartbeatConfig, h: HeartbeatState, now: int)
    ensures PageActiveMs(ScheduleNext(cfg, h, now), now) == PageActiveMs(h, now)
    ensures ScheduleNext(cfg, h, now).isActive ==> h.isActive && ScheduleNext(cfg, h, now) == h
  {
  }
}
