/** The cumulative action log of a session and its invariants. */
module SessionState {
  import opened EventTable
  import opened SessionPayload

  const MAX_ACTIONS := 1000

  /** The log and the index of the page the visitor is on. */
  datatype Log = Log(actions: seq<Action>, current: Option<nat>)

  const EmptyLog := Log([], None)

  // ---------------------------------------------------------------- operations on values

  function Max(a: int, b: int): int { if a >= b then a else b }
  function Min(a: int, b: int): int { if a <= b then a else b }

  ghost predicate OnPage(log: Log) {
    log.current.Some? && log.current.value < |log.actions| && log.actions[log.current.value].Pageview?
  }

  /** Writes the focus time and the exit time of the current page. */
  function Touch(log: Log, focusMs: int, now: int): Log {
    if log.current.Some? && log.current.value < |log.actions| && log.actions[log.current.value].Pageview? then
      var i := log.current.value;
      log.(actions := log.actions[i := log.actions[i].(duration := focusMs, exitedAt := now)])
    else log
  }

  function MaxPageNumber(actions: seq<Action>): int {
    if actions == [] then 0
    else Max(MaxPageNumber(actions[..|actions| - 1]), actions[|actions| - 1].pageNumber)
  }

  function AddPageview(log: Log, path: string, focusMs: int, now: int): Log {
    if |log.actions| >= MAX_ACTIONS then log
    else
      var touched := Touch(log, focusMs, now).actions;
      Log(touched + [Pageview(path, MaxPageNumber(touched) + 1, 0, 0, now, now)], Some(|touched|))
  }

  function UpdateScroll(log: Log, percent: int): Log {
    if log.current.Some? && log.current.value < |log.actions| && log.actions[log.current.value].Pageview? then
      var i := log.current.value;
      log.(actions := log.actions[i := log.actions[i].(scroll := Max(log.actions[i].scroll, Max(0, Min(100, percent))))])
    else log
  }

  function CurrentPath(log: Log): string {
    if log.current.Some? && log.current.value < |log.actions| && log.actions[log.current.value].path != ""
    then log.actions[log.current.value].path else "/"
  }

  function CurrentPageNumber(log: Log): int {
    if log.current.Some? && log.current.value < |log.actions| && log.actions[log.current.value].pageNumber != 0
    then log.actions[log.current.value].pageNumber else 1
  }

  function AddGoal(log: Log, name: string, value: Option<real>, properties: map<string, string>, now: int): Log {
    if |log.actions| >= MAX_ACTIONS then log
    else log.(actions := log.actions + [Goal(name, CurrentPath(log), CurrentPageNumber(log), now, value, properties)])
  }

  function FinalizeForUnload(log: Log, focusMs: int, now: int): Log {
    Touch(log, focusMs, now).(current := None)
  }

  // ---------------------------------------------------------------- invariants

  function PageviewCount(ids: seq<ActionId>): nat {
    if ids == [] then 0
    else PageviewCount(ids[..|ids| - 1]) + if ids[|ids| - 1].PageviewId? then 1 else 0
  }

  /** Pageviews are numbered 1, 2, 3, ...; a goal carries the number of a page already seen. */
  ghost predicate Numbered(ids: seq<ActionId>) {
    forall i | 0 <= i < |ids| ::
      if ids[i].PageviewId? then ids[i].pageNumber == PageviewCount(ids[..i]) + 1
      else 1 <= ids[i].pageNumber <= PageviewCount(ids[..i])
  }

  /** Visits are disjoint intervals in log order, and no visit was in focus for longer than it lasted. */
  ghost predicate Spaced(actions: seq<Action>) {
    && (forall i | 0 <= i < |actions| && actions[i].Pageview? ::
          0 <= actions[i].duration <= actions[i].exitedAt - actions[i].enteredAt)
    && forall i, j | 0 <= i < j < |actions| && actions[i].Pageview? && actions[j].Pageview? ::
         actions[i].exitedAt <= actions[j].enteredAt
  }

  /** The current page, if any, is the last pageview. */
  ghost predicate CurrentIsLast(log: Log) {
    log.current.Some? ==>
      && OnPage(log)
      && forall j | log.current.value < j < |log.actions| :: !log.actions[j].Pageview?
  }

  /** What holds of every log, whatever its durations say. */
  ghost predicate Ordered(log: Log) {
    1 <= |log.actions| <= MAX_ACTIONS && Numbered(Ids(log.actions)) && CurrentIsLast(log)
  }

  /** A sound log is ordered and its durations are believable. */
  ghost predicate LogInv(log: Log) {
    Ordered(log) && Spaced(log.actions)
  }

  ghost predicate ExitedBy(actions: seq<Action>, now: int) {
    forall i | 0 <= i < |actions| && actions[i].Pageview? :: actions[i].exitedAt <= now
  }

  /** A focus time fits the current page: it is no longer than the time since that page was entered. */
  ghost predicate Fits(log: Log, focusMs: int, now: int) {
    OnPage(log) ==> 0 <= focusMs <= now - log.actions[log.current.value].enteredAt
  }

  lemma PageviewCountBounds(ids: seq<ActionId>)
    ensures PageviewCount(ids) <= |ids|
    ensures forall i | 0 <= i < |ids| && ids[i].PageviewId? :: PageviewCount(ids) >= 1
  {
  }

  lemma {:induction false} MaxPageNumberCounts(actions: seq<Action>)
    requires Numbered(Ids(actions))
    ensures MaxPageNumber(actions) == PageviewCount(Ids(actions))
  {
    if actions != [] {
      var n := |actions| - 1;
      assert Ids(actions[..n]) == Ids(actions)[..n];
      NumberedPrefix(Ids(actions), n);
      MaxPageNumberCounts(actions[..n]);
    }
  }

  lemma NumberedPrefix(ids: seq<ActionId>, n: nat)
    requires Numbered(ids) && n <= |ids|
    ensures Numbered(ids[..n])
  {
    forall i | 0 <= i < n ensures ids[..n][..i] == ids[..i] {}
  }

  lemma NumberedAppend(ids: seq<ActionId>, id: ActionId)
    requires Numbered(ids)
    requires if id.PageviewId? then id.pageNumber == PageviewCount(ids) + 1 else 1 <= id.pageNumber <= PageviewCount(ids)
    ensures Numbered(ids + [id])
  {
    var all := ids + [id];
    assert all[..|ids|] == ids;
    forall i | 0 <= i < |ids| ensures all[..i] == ids[..i] {}
  }

  lemma TouchKeepsIds(log: Log, focusMs: int, now: int)
    ensures Ids(Touch(log, focusMs, now).actions) == Ids(log.actions)
    ensures Touch(log, focusMs, now).current == log.current
  {
  }

  lemma ScrollKeepsIds(log: Log, percent: int)
    ensures Ids(UpdateScroll(log, percent).actions) == Ids(log.actions)
  {
  }

  lemma TouchKeepsOrdered(log: Log, focusMs: int, now: int)
    requires Ordered(log)
    ensures Ordered(Touch(log, focusMs, now))
  {
    TouchKeepsIds(log, focusMs, now);
  }

  /** Writing a focus time keeps a sound log sound exactly when it fits the current page. */
  lemma TouchSoundIffFits(log: Log, focusMs: int, now: int)
    requires LogInv(log) && ExitedBy(log.actions, now)
    ensures LogInv(Touch(log, focusMs, now)) <==> Fits(log, focusMs, now)
    ensures ExitedBy(Touch(log, focusMs, now).actions, now)
  {
    TouchKeepsOrdered(log, focusMs, now);
    if OnPage(log) {
      var i, touched := log.current.value, Touch(log, focusMs, now).actions;
      assert touched[i].duration == focusMs && touched[i].exitedAt == now && touched[i].enteredAt == log.actions[i].enteredAt;
    }
  }

  lemma ScrollKeepsLog(log: Log, percent: int)
    requires Ordered(log)
    ensures Ordered(UpdateScroll(log, percent))
    ensures Spaced(log.actions) ==> Spaced(UpdateScroll(log, percent).actions)
    ensures forall now :: ExitedBy(log.actions, now) ==> ExitedBy(UpdateScroll(log, percent).actions, now)
    ensures forall f, now :: Fits(log, f, now) ==> Fits(UpdateScroll(log, percent), f, now)
  {
    ScrollKeepsIds(log, percent);
  }

  lemma UnloadKeepsLog(log: Log, focusMs: int, now: int)
    requires Ordered(log)
    ensures Ordered(FinalizeForUnload(log, focusMs, now))
    ensures LogInv(log) && ExitedBy(log.actions, now) && Fits(log, focusMs, now) ==>
              LogInv(FinalizeForUnload(log, focusMs, now)) && ExitedBy(FinalizeForUnload(log, focusMs, now).actions, now)
  {
    TouchKeepsOrdered(log, focusMs, now);
    if LogInv(log) && ExitedBy(log.actions, now) {
      TouchSoundIffFits(log, focusMs, now);
    }
  }

  /** A pageview keeps a log ordered and extends it. */
  lemma PageviewKeepsOrdered(log: Log, path: string, focusMs: int, now: int)
    requires Ordered(log)
    ensures Ordered(AddPageview(log, path, focusMs, now))
    ensures Ids(log.actions) <= Ids(AddPageview(log, path, focusMs, now).actions)
  {
    if |log.actions| < MAX_ACTIONS {
      var touched := Touch(log, focusMs, now);
      TouchKeepsOrdered(log, focusMs, now);
      TouchKeepsIds(log, focusMs, now);
      MaxPageNumberCounts(touched.actions);
      var added := AddPageview(log, path, focusMs, now);
      var id := added.actions[|touched.actions|].Id();
      assert Ids(added.actions) == Ids(touched.actions) + [id];
      NumberedAppend(Ids(touched.actions), id);
    }
  }

  /** With a focus time that fits it also keeps the log sound, and the page timer may start again at zero. */
  lemma PageviewKeepsLog(log: Log, path: string, focusMs: int, now: int)
    requires LogInv(log) && ExitedBy(log.actions, now) && Fits(log, focusMs, now)
    ensures LogInv(AddPageview(log, path, focusMs, now))
    ensures ExitedBy(AddPageview(log, path, focusMs, now).actions, now)
    ensures Fits(AddPageview(log, path, focusMs, now), 0, now)
  {
    PageviewKeepsOrdered(log, path, focusMs, now);
    TouchSoundIffFits(log, focusMs, now);
  }

  /** The first pageview of a log that has none starts the numbering at 1. */
  lemma FirstPageview(path: string, focusMs: int, now: int)
    ensures AddPageview(EmptyLog, path, focusMs, now) == Log([Pageview(path, 1, 0, 0, now, now)], Some(0))
    ensures LogInv(AddPageview(EmptyLog, path, focusMs, now))
    ensures ExitedBy(AddPageview(EmptyLog, path, focusMs, now).actions, now)
    ensures Fits(AddPageview(EmptyLog, path, focusMs, now), 0, now)
  {
    var actions := AddPageview(EmptyLog, path, focusMs, now).actions;
    assert Ids(actions)[..0] == [];
  }

  lemma FirstActionIsPageview(ids: seq<ActionId>)
    requires Numbered(ids) && ids != []
    ensures ids[0] == PageviewId(ids[0].path, 1, ids[0].enteredAt)
    ensures PageviewCount(ids) >= 1
  {
    assert ids[..0] == [];
    PageviewCountBounds(ids);
  }

  /** A goal keeps a log ordered and extends it. */
  lemma GoalKeepsOrdered(log: Log, name: string, value: Option<real>, properties: map<string, string>, now: int)
    requires Ordered(log)
    ensures Ordered(AddGoal(log, name, value, properties, now))
    ensures Ids(log.actions) <= Ids(AddGoal(log, name, value, properties, now).actions)
  {
    if |log.actions| < MAX_ACTIONS {
      var added := AddGoal(log, name, value, properties, now);
      var ids, id := Ids(log.actions), added.actions[|log.actions|].Id();
      assert Ids(added.actions) == ids + [id];
      FirstActionIsPageview(ids);
      if log.current.Some? {
        CountUpTo(ids, log.current.value);
      }
      NumberedAppend(ids, id);
    }
  }

  /** It also keeps a sound log sound, and the current page as it is. */
  lemma GoalKeepsLog(log: Log, name: string, value: Option<real>, properties: map<string, string>, now: int, focusMs: int)
    requires LogInv(log) && ExitedBy(log.actions, now) && Fits(log, focusMs, now)
    ensures var after := AddGoal(log, name, value, properties, now);
            LogInv(after) && ExitedBy(after.actions, now) && Fits(after, focusMs, now)
  {
    GoalKeepsOrdered(log, name, value, properties, now);
  }

  lemma {:induction false} CountUpTo(ids: seq<ActionId>, i: nat)
    requires i < |ids|
    ensures PageviewCount(ids[..i]) + (if ids[i].PageviewId? then 1 else 0) <= PageviewCount(ids)
    decreases |ids|
  {
    var n := |ids| - 1;
    if i < n {
      CountUpTo(ids[..n], i);
      assert ids[..n][..i] == ids[..i];
    }
  }

  // ---------------------------------------------------------------- what is recorded

  /** Reading the focus time changes the duration and the exit time of the current page, and nothing else. */
  lemma TouchWritesCurrentPage(log: Log, focusMs: int, now: int)
    requires CurrentIsLast(log)
    ensures var r := Touch(log, focusMs, now);
            && r.current == log.current && |r.actions| == |log.actions|
            && forall i | 0 <= i < |log.actions| ::
                 if log.current == Some(i) then
                   r.actions[i] == Pageview(log.actions[i].path, log.actions[i].pageNumber, focusMs, log.actions[i].scroll,
                                            log.actions[i].enteredAt, now)
                 else r.actions[i] == log.actions[i]
  {
  }

  /** A pageview that is not refused is recorded with its path, the next number, the time, and nothing yet of duration or
      scroll depth; it becomes the current page, and the page before gets its focus time and exit. */
  lemma PageviewIsRecorded(log: Log, path: string, focusMs: int, now: int)
    requires log == EmptyLog || Ordered(log)
    ensures |log.actions| >= 1000 ==> AddPageview(log, path, focusMs, now) == log
    ensures |log.actions| < 1000 ==>
              var r, n := AddPageview(log, path, focusMs, now), |log.actions|;
              && |r.actions| == n + 1 && r.current == Some(n)
              && r.actions[n] == Pageview(path, PageviewCount(Ids(log.actions)) + 1, 0, 0, now, now)
              && forall i | 0 <= i < n ::
                   if log.current == Some(i) then
                     r.actions[i] == Pageview(log.actions[i].path, log.actions[i].pageNumber, focusMs, log.actions[i].scroll,
                                              log.actions[i].enteredAt, now)
                   else r.actions[i] == log.actions[i]
  {
    if log != EmptyLog {
      TouchKeepsIds(log, focusMs, now);
      MaxPageNumberCounts(Touch(log, focusMs, now).actions);
      TouchWritesCurrentPage(log, focusMs, now);
    }
  }

  /** A goal that is not refused is recorded as given, with the path and the number of the page the visitor is on. With no
      current page it goes to "/", page 1. */
  lemma GoalIsRecorded(log: Log, name: string, value: Option<real>, properties: map<string, string>, now: int)
    requires Ordered(log)
    ensures |log.actions| >= 1000 ==> AddGoal(log, name, value, properties, now) == log
    ensures |log.actions| < 1000 ==>
              var r, n := AddGoal(log, name, value, properties, now), |log.actions|;
              && |r.actions| == n + 1 && r.actions[..n] == log.actions && r.current == log.current
              && r.actions[n].Goal? && r.actions[n].name == name && r.actions[n].timestamp == now
              && r.actions[n].value == value && r.actions[n].properties == properties
              && (log.current.None? ==> r.actions[n].path == "/" && r.actions[n].pageNumber == 1)
              && (log.current.Some? ==>
                    var page := log.actions[log.current.value];
                    && r.actions[n].pageNumber == page.pageNumber
                    && r.actions[n].path == if page.path == "" then "/" else page.path)
  {
    if log.current.Some? {
      assert Ids(log.actions)[log.current.value].pageNumber == PageviewCount(Ids(log.actions)[..log.current.value]) + 1;
    }
  }

  /** Scroll readings one after the other. */
  function ScrolledBy(log: Log, readings: seq<int>): Log {
    if readings == [] then log else UpdateScroll(ScrolledBy(log, readings[..|readings| - 1]), readings[|readings| - 1])
  }

  /** The depth is a reading, cut to the range from 0 to 100. */
  ghost predicate IsDepth(reading: int, depth: int) {
    if reading < 0 then depth == 0 else if reading > 100 then depth == 100 else depth == reading
  }

  /** The scroll depth of the current page is the greatest of the depth it had and of all readings, each cut to the range
      from 0 to 100; nothing else changes. */
  lemma {:induction false} ScrollIsGreatest(log: Log, readings: seq<int>)
    requires OnPage(log)
    ensures var r, i := ScrolledBy(log, readings), log.current.value;
            && r.current == log.current && |r.actions| == |log.actions|
            && r.actions[i].Pageview? && r.actions == log.actions[i := log.actions[i].(scroll := r.actions[i].scroll)]
            && r.actions[i].scroll >= log.actions[i].scroll
            && (forall k, d | 0 <= k < |readings| && IsDepth(readings[k], d) :: r.actions[i].scroll >= d)
            && (r.actions[i].scroll == log.actions[i].scroll || exists k :: 0 <= k < |readings| && IsDepth(readings[k], r.actions[i].scroll))
  {
    if readings == [] {
      assert log.actions == log.actions[log.current.value := log.actions[log.current.value]];
    } else {
      var n, i := |readings| - 1, log.current.value;
      ScrollIsGreatest(log, readings[..n]);
      var before, after := ScrolledBy(log, readings[..n]), ScrolledBy(log, readings);
      assert forall k | 0 <= k < n :: readings[..n][k] == readings[k];
      if after.actions[i].scroll != before.actions[i].scroll {
        assert IsDepth(readings[n], after.actions[i].scroll);
      }
    }
  }

  // ---------------------------------------------------------------- focus time never over-counts

  function FocusTotal(actions: seq<Action>): int {
    if actions == [] then 0
    else FocusTotal(actions[..|actions| - 1])
         + if actions[|actions| - 1].Pageview? then actions[|actions| - 1].duration else 0
  }

  /** Visits that lie between two moments were in focus for at most the time between them. */
  lemma {:induction false} FocusTotalWithin(actions: seq<Action>, from: int, to: int)
    requires Spaced(actions) && from <= to
    requires forall i | 0 <= i < |actions| && actions[i].Pageview? :: from <= actions[i].enteredAt && actions[i].exitedAt <= to
    ensures 0 <= FocusTotal(actions) <= to - from
  {
    if actions != [] {
      var n := |actions| - 1;
      FocusTotalWithin(actions[..n], from, if actions[n].Pageview? then actions[n].enteredAt else to);
    }
  }

  /** Total focus time is at most the time from the first entry to the last exit. */
  lemma FocusNeverOverCounts(actions: seq<Action>, first: nat, last: nat)
    requires Spaced(actions)
    requires first < |actions| && last < |actions| && actions[first].Pageview? && actions[last].Pageview?
    requires forall i | 0 <= i < |actions| && actions[i].Pageview? :: first <= i <= last
    ensures 0 <= FocusTotal(actions) <= actions[last].exitedAt - actions[first].enteredAt
  {
    FocusTotalWithin(actions, actions[first].enteredAt, actions[last].exitedAt);
  }

  // ---------------------------------------------------------------- what the log alone does not keep

  /** The log's own operations, without the SDK's habit of starting with a pageview. */
  datatype LogStep = Page(path: string, focusMs: int, now: int)
                   | Convert(name: string, value: Option<real>, properties: map<string, string>, now: int)

  function LogNext(log: Log, step: LogStep): Log {
    match step
    case Page(path, focusMs, now) => AddPageview(log, path, focusMs, now)
    case Convert(name, value, properties, now) => AddGoal(log, name, value, properties, now)
  }

  function LogRun(steps: seq<LogStep>): Log {
    if steps == [] then EmptyLog else LogNext(LogRun(steps[..|steps| - 1]), steps[|steps| - 1])
  }

  ghost predicate StartsAt(actions: seq<Action>, first: int) {
    && forall i | 0 <= i < |actions| && actions[i].Pageview? ::
         actions[i].pageNumber == first + PageviewCount(Ids(actions[..i]))
  }

  ghost predicate Shape(log: Log, first: int) {
    && MaxPageNumber(log.actions) == first - 1 + PageviewCount(Ids(log.actions))
    && StartsAt(log.actions, first)
    && (log.current.Some? ==> OnPage(log))
  }

  lemma FirstStepShape(step: LogStep)
    ensures var log := LogNext(EmptyLog, step);
            && |log.actions| == 1 && (log.actions[0].Pageview? <==> step.Page?)
            && Shape(log, if step.Page? then 1 else 2)
  {
    var actions := LogNext(EmptyLog, step).actions;
    assert Ids(actions)[..0] == [];
    assert actions[..0] == [];
    assert Ids(actions[..0]) == [];
  }

  ghost predicate ShapeFrom(log: Log, first: int) {
    first >= 1 && log.actions != [] && Shape(log, first) && MaxPageNumber(log.actions) >= 1
  }

  lemma PageKeepsShape(log: Log, path: string, focusMs: int, now: int, first: int)
    requires ShapeFrom(log, first)
    ensures ShapeFrom(AddPageview(log, path, focusMs, now), first)
    ensures AddPageview(log, path, focusMs, now).actions[0].Pageview? <==> log.actions[0].Pageview?
  {
    if |log.actions| < MAX_ACTIONS {
      TouchedShape(log, focusMs, now, first);
      AppendedShape(Touch(log, focusMs, now).actions, AddPageview(log, path, focusMs, now).actions[|log.actions|], first);
    }
  }

  lemma ConvertKeepsShape(log: Log, name: string, value: Option<real>, properties: map<string, string>, now: int, first: int)
    requires ShapeFrom(log, first)
    ensures ShapeFrom(AddGoal(log, name, value, properties, now), first)
    ensures AddGoal(log, name, value, properties, now).actions[0].Pageview? <==> log.actions[0].Pageview?
  {
    if |log.actions| < MAX_ACTIONS {
      GoalNumberAtMostMax(log);
      AppendedShape(log.actions, Goal(name, CurrentPath(log), CurrentPageNumber(log), now, value, properties), first);
    }
  }

  lemma GoalNumberAtMostMax(log: Log)
    requires MaxPageNumber(log.actions) >= 1
    ensures CurrentPageNumber(log) <= MaxPageNumber(log.actions)
  {
    if log.current.Some? && log.current.value < |log.actions| {
      MemberAtMostMax(log.actions, log.current.value);
    }
  }

  lemma {:induction false} LogRunShape(steps: seq<LogStep>)
    requires steps != []
    ensures var log := LogRun(steps);
            && log.actions != [] && (log.actions[0].Pageview? <==> steps[0].Page?)
            && Shape(log, if steps[0].Page? then 1 else 2) && MaxPageNumber(log.actions) >= 1
  {
    var n := |steps| - 1;
    if n == 0 {
      assert steps[..n] == [];
      FirstStepShape(steps[0]);
      var actions := LogRun(steps).actions;
      assert MaxPageNumber(actions[..0]) == 0;
    } else {
      LogRunShape(steps[..n]);
      var log, first := LogRun(steps[..n]), if steps[0].Page? then 1 else 2;
      match steps[n] {
        case Page(path, focusMs, now) => PageKeepsShape(log, path, focusMs, now, first);
        case Convert(name, value, properties, now) => ConvertKeepsShape(log, name, value, properties, now, first);
      }
    }
  }

  lemma {:induction false} MemberAtMostMax(actions: seq<Action>, i: nat)
    requires i < |actions|
    ensures actions[i].pageNumber <= MaxPageNumber(actions)
  {
    if i < |actions| - 1 {
      MemberAtMostMax(actions[..|actions| - 1], i);
    }
  }

  lemma {:induction false} SamePageNumbers(a: seq<Action>, b: seq<Action>)
    requires Ids(a) == Ids(b)
    ensures MaxPageNumber(a) == MaxPageNumber(b)
  {
    if a != [] {
      assert Ids(a)[|a| - 1] == Ids(b)[|a| - 1];
      assert Ids(a[..|a| - 1]) == Ids(b[..|a| - 1]);
      SamePageNumbers(a[..|a| - 1], b[..|a| - 1]);
    }
  }

  lemma TouchedShape(log: Log, focusMs: int, now: int, first: int)
    requires StartsAt(log.actions, first)
    ensures StartsAt(Touch(log, focusMs, now).actions, first)
    ensures MaxPageNumber(Touch(log, focusMs, now).actions) == MaxPageNumber(log.actions)
    ensures Ids(Touch(log, focusMs, now).actions) == Ids(log.actions)
  {
    var touched := Touch(log, focusMs, now).actions;
    TouchKeepsIds(log, focusMs, now);
    SamePageNumbers(touched, log.actions);
    forall i | 0 <= i < |touched| ensures Ids(touched[..i]) == Ids(log.actions[..i])
      && touched[i].Pageview? == log.actions[i].Pageview? && touched[i].pageNumber == log.actions[i].pageNumber
    {
      assert Ids(touched[..i]) == Ids(touched)[..i];
      assert Ids(log.actions[..i]) == Ids(log.actions)[..i];
      assert Ids(touched)[i] == Ids(log.actions)[i];
    }
  }

  lemma AppendedStarts(actions: seq<Action>, a: Action, first: int)
    requires StartsAt(actions, first)
    requires a.Pageview? ==> a.pageNumber == first + PageviewCount(Ids(actions))
    ensures StartsAt(actions + [a], first)
  {
    var all := actions + [a];
    forall i | 0 <= i < |all| && all[i].Pageview? ensures all[i].pageNumber == first + PageviewCount(Ids(all[..i])) {
      assert all[..i] == actions[..i];
      if i == |actions| { assert actions[..i] == actions; }
    }
  }

  lemma AppendedShape(actions: seq<Action>, a: Action, first: int)
    requires first >= 1 && StartsAt(actions, first)
    requires MaxPageNumber(actions) == first - 1 + PageviewCount(Ids(actions))
    requires if a.Pageview? then a.pageNumber == MaxPageNumber(actions) + 1 else a.pageNumber <= MaxPageNumber(actions)
    ensures StartsAt(actions + [a], first)
    ensures MaxPageNumber(actions + [a]) == first - 1 + PageviewCount(Ids(actions + [a]))
  {
    AppendedStarts(actions, a, first);
    var all := actions + [a];
    assert all[..|actions|] == actions;
    assert Ids(all)[..|actions|] == Ids(actions);
  }

  /** The log records the first 1000 calls and refuses the rest. */
  lemma {:induction false} LogRunKinds(steps: seq<LogStep>)
    ensures |LogRun(steps).actions| == Min(|steps|, MAX_ACTIONS)
    ensures forall i | 0 <= i < |LogRun(steps).actions| :: LogRun(steps).actions[i].Pageview? <==> steps[i].Page?
  {
    if steps != [] {
      var n := |steps| - 1;
      LogRunKinds(steps[..n]);
      var before := LogRun(steps[..n]);
      assert |LogNext(before, steps[n]).actions| == if |before.actions| < MAX_ACTIONS then |before.actions| + 1 else |before.actions|;
    }
  }

  /** Used on its own, the log numbers its pageviews 1, 2, 3, ... exactly when the first call records a pageview or
      none of the first 1000 calls does: a goal recorded first takes number 1 and pushes them to 2, 3, ... */
  lemma NumbersFromOne(steps: seq<LogStep>)
    ensures StartsAt(LogRun(steps).actions, 1) <==>
            (steps != [] && steps[0].Page?) || forall i | 0 <= i < Min(|steps|, MAX_ACTIONS) :: steps[i].Convert?
  {
    LogRunKinds(steps);
    if steps != [] {
      LogRunShape(steps);
    }
  }

  // ---------------------------------------------------------------- the class

  class SessionStateStore {
    const workspaceId: string
    const sessionId: string
    const createdAt: int
    const attributes: map<string, string>
    var actions: seq<Action>
    var currentPageIndex: Option<nat>

    ghost function Model(): Log
      reads this
    {
      Log(actions, currentPageIndex)
    }

    constructor (workspaceId: string, sessionId: string, createdAt: int, attributes: map<string, string>)
      ensures Model() == EmptyLog
      ensures this.workspaceId == workspaceId && this.sessionId == sessionId
      ensures this.createdAt == createdAt && this.attributes == attributes
    {
      this.workspaceId, this.sessionId, this.createdAt, this.attributes := workspaceId, sessionId, createdAt, attributes;
      actions, currentPageIndex := [], None;
    }

    /** The loop of `getNextPageNumber`. */
    method GetNextPageNumber() returns (next: int)
      ensures next == MaxPageNumber(actions) + 1
    {
      var maxPageNumber := 0;
      for i := 0 to |actions|
        invariant maxPageNumber == MaxPageNumber(actions[..i])
      {
        assert actions[..i + 1][..i] == actions[..i];
        if actions[i].pageNumber > maxPageNumber {
          maxPageNumber := actions[i].pageNumber;
        }
      }
      assert actions[..|actions|] == actions;
      return maxPageNumber + 1;
    }

    method FinalizeCurrentPageDuration(focusMs: int, exitTime: int)
      modifies this`actions
      ensures Model() == Touch(old(Model()), focusMs, exitTime)
    {
      if currentPageIndex.None? { return; }
      var i := currentPageIndex.value;
      if i >= |actions| || !actions[i].Pageview? { return; }
      actions := actions[i := actions[i].(duration := focusMs, exitedAt := exitTime)];
    }

    /** `focusMs` is what the focus time callback returns, 0 when none is set. */
    method AddPageviewAt(path: string, focusMs: int, now: int)
      modifies this
      ensures Model() == AddPageview(old(Model()), path, focusMs, now)
    {
      if |actions| >= MAX_ACTIONS { return; }
      if currentPageIndex.Some? {
        FinalizeCurrentPageDuration(focusMs, now);
      }
      var pageNumber := GetNextPageNumber();
      actions := actions + [Pageview(path, pageNumber, 0, 0, now, now)];
      currentPageIndex := Some(|actions| - 1);
    }

    method UpdateScrollTo(scrollPercent: int)
      modifies this`actions
      ensures Model() == UpdateScroll(old(Model()), scrollPercent)
    {
      if currentPageIndex.None? { return; }
      var i := currentPageIndex.value;
      if i >= |actions| || !actions[i].Pageview? { return; }
      var clamped := Max(0, Min(100, scrollPercent));
      if clamped > actions[i].scroll {
        actions := actions[i := actions[i].(scroll := clamped)];
      } else {
        assert actions[i] == actions[i].(scroll := Max(actions[i].scroll, clamped));
        assert actions == actions[i := actions[i]];
      }
    }

    method AddGoalAt(name: string, value: Option<real>, properties: map<string, string>, now: int) returns (added: bool)
      modifies this`actions
      ensures Model() == AddGoal(old(Model()), name, value, properties, now)
      ensures added <==> |actions| == old(|actions|) + 1
    {
      if |actions| >= MAX_ACTIONS { return false; }
      var path, pageNumber := "/", 1;
      if currentPageIndex.Some? && currentPageIndex.value < |actions| {
        var page := actions[currentPageIndex.value];
        if page.path != "" { path := page.path; }
        if page.pageNumber != 0 { pageNumber := page.pageNumber; }
      }
      actions := actions + [Goal(name, path, pageNumber, now, value, properties)];
      return true;
    }

    method BuildPayload(focusMs: int, now: int) returns (payload: Payload)
      modifies this`actions
      ensures Model() == Touch(old(Model()), focusMs, now)
      ensures payload == Payload(workspaceId, sessionId, actions, attributes, createdAt, now)
    {
      if currentPageIndex.Some? {
        var i := currentPageIndex.value;
        if i < |actions| && actions[i].Pageview? {
          actions := actions[i := actions[i].(duration := focusMs, exitedAt := now)];
        }
      }
      return Payload(workspaceId, sessionId, actions, attributes, createdAt, now);
    }

    method FinalizeOnUnload(focusMs: int, now: int)
      modifies this
      ensures Model() == FinalizeForUnload(old(Model()), focusMs, now)
    {
      if currentPageIndex.None? { return; }
      var i := currentPageIndex.value;
      if i < |actions| && actions[i].Pageview? {
        actions := actions[i := actions[i].(duration := focusMs, exitedAt := now)];
      }
      currentPageIndex := None;
    }

    method Restore(snapshot: Log)
      modifies this
      ensures Model() == snapshot
    {
      actions, currentPageIndex := snapshot.actions, snapshot.current;
    }
  }
}
