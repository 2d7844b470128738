/** The per-workspace event buffer in front of the `events` table, as a machine whose steps are the
    stretches of code between two awaits. */
module EventBuffer {
  import opened EventTable

  const MAX_BUFFER_SIZE := 500

  /** A flush call suspended at its insert, holding the events it took out of the buffer. */
  datatype InsertCall = InsertCall(workspaceId: string, events: seq<TrackingEvent>)

  /** `added`, `inserted` and `table` record the environment: every event ever added, the events of the
      inserts that succeeded, and the rows the database applied, also by inserts that failed. */
  datatype BufferState = BufferState(
    buffers: map<string, seq<TrackingEvent>>,
    timers: set<string>,
    flushing: set<string>,
    suspended: seq<InsertCall>,
    added: seq<TrackingEvent>,
    inserted: map<string, seq<TrackingEvent>>,
    table: map<string, seq<TrackingEvent>>)

  datatype BufferStep =
    | Add(event: TrackingEvent)
    | Flush(workspaceId: string)
    | TimerFires(workspaceId: string)
    | InsertSucceeds(call: nat)
    | InsertFails(call: nat, applied: seq<TrackingEvent>)
    | Shutdown(order: seq<string>)

  const EmptyBuffer := BufferState(map[], {}, {}, [], [], map[], map[])

  function Rows(m: map<string, seq<TrackingEvent>>, ws: string): seq<TrackingEvent> {
    if ws in m then m[ws] else []
  }

  function ForWorkspace(events: seq<TrackingEvent>, ws: string): seq<TrackingEvent> {
    if events == [] then []
    else
      var n := |events| - 1;
      ForWorkspace(events[..n], ws) + if events[n].workspaceId == ws then [events[n]] else []
  }

  lemma {:induction false} ForWorkspaceMembers(events: seq<TrackingEvent>, ws: string)
    ensures forall e :: e in ForWorkspace(events, ws) <==> e in events && e.workspaceId == ws
  {
    if events != [] {
      var n := |events| - 1;
      ForWorkspaceMembers(events[..n], ws);
      assert events == events[..n] + [events[n]];
    }
  }

  lemma {:induction false} NoneForWorkspace(events: seq<TrackingEvent>, ws: string)
    requires forall e | e in events :: e.workspaceId != ws
    ensures ForWorkspace(events, ws) == []
  {
    if events != [] {
      NoneForWorkspace(events[..|events| - 1], ws);
    }
  }

  lemma ForWorkspaceAppend(events: seq<TrackingEvent>, e: TrackingEvent, ws: string)
    ensures ForWorkspace(events + [e], ws) == ForWorkspace(events, ws) + if e.workspaceId == ws then [e] else []
  {
    assert (events + [e])[..|events|] == events;
  }

  /** The events of a workspace that suspended inserts hold. */
  function InFlight(calls: seq<InsertCall>, ws: string): seq<TrackingEvent> {
    if calls == [] then []
    else
      var n := |calls| - 1;
      InFlight(calls[..n], ws) + if calls[n].workspaceId == ws then calls[n].events else []
  }

  function Without(calls: seq<InsertCall>, i: nat): seq<InsertCall>
    requires i < |calls|
  {
    calls[..i] + calls[i + 1..]
  }

  // ---------------------------------------------------------------- steps

  function FlushStep(s: BufferState, ws: string): BufferState {
    var stopped := s.(timers := s.timers - {ws});
    if Rows(s.buffers, ws) == [] || ws in s.flushing then stopped
    else stopped.(flushing := s.flushing + {ws},
                  suspended := s.suspended + [InsertCall(ws, s.buffers[ws])],
                  buffers := s.buffers[ws := []])
  }

  function Push(s: BufferState, e: TrackingEvent): BufferState {
    var ws := e.workspaceId;
    var buffer := Rows(s.buffers, ws) + [e];
    s.(buffers := s.buffers[ws := buffer],
       timers := if |buffer| == 1 then s.timers + {ws} else s.timers,
       added := s.added + [e])
  }

  function AddStep(s: BufferState, e: TrackingEvent): BufferState {
    var pushed := Push(s, e);
    if |pushed.buffers[e.workspaceId]| >= MAX_BUFFER_SIZE then FlushStep(pushed, e.workspaceId) else pushed
  }

  function SuccessStep(s: BufferState, i: nat): BufferState
    requires i < |s.suspended|
  {
    var InsertCall(ws, events) := s.suspended[i];
    s.(flushing := s.flushing - {ws},
       suspended := Without(s.suspended, i),
       inserted := s.inserted[ws := Rows(s.inserted, ws) + events],
       table := s.table[ws := Rows(s.table, ws) + events])
  }

  /** The insert reports an error after the database applied any of the rows, any number of times. */
  function FailureStep(s: BufferState, i: nat, applied: seq<TrackingEvent>): BufferState
    requires i < |s.suspended|
  {
    var InsertCall(ws, events) := s.suspended[i];
    s.(flushing := s.flushing - {ws},
       suspended := Without(s.suspended, i),
       buffers := s.buffers[ws := events + Rows(s.buffers, ws)],
       table := s.table[ws := Rows(s.table, ws) + applied])
  }

  function FlushEach(s: BufferState, order: seq<string>): BufferState {
    if order == [] then s
    else
      var n := |order| - 1;
      FlushStep(FlushEach(s, order[..n]), order[n])
  }

  ghost predicate Enabled(s: BufferState, step: BufferStep) {
    match step
    case Add(_) => true
    case Flush(_) => true
    case TimerFires(ws) => ws in s.timers
    case InsertSucceeds(i) => i < |s.suspended|
    case InsertFails(i, applied) =>
      i < |s.suspended| && forall e | e in applied :: e in s.suspended[i].events
    case Shutdown(order) => (set ws | ws in order) == s.buffers.Keys
  }

  ghost function Next(s: BufferState, step: BufferStep): BufferState
    requires Enabled(s, step)
  {
    match step
    case Add(e) => AddStep(s, e)
    case Flush(ws) => FlushStep(s, ws)
    case TimerFires(ws) => FlushStep(s, ws)
    case InsertSucceeds(i) => SuccessStep(s, i)
    case InsertFails(i, applied) => FailureStep(s, i, applied)
    case Shutdown(order) => FlushEach(s.(timers := {}), order)
  }

  /** A run: states linked by enabled steps, from the empty buffer. */
  ghost predicate IsRun(states: seq<BufferState>, steps: seq<BufferStep>) {
    && |states| == |steps| + 1
    && states[0] == EmptyBuffer
    && forall i | 0 <= i < |steps| :: Enabled(states[i], steps[i]) && states[i + 1] == Next(states[i], steps[i])
  }

  // ---------------------------------------------------------------- invariant

  ghost function InsertWorkspaces(calls: seq<InsertCall>): set<string> {
    set c | c in calls :: c.workspaceId
  }

  ghost predicate DistinctWorkspaces(calls: seq<InsertCall>) {
    forall i, j | 0 <= i < j < |calls| :: calls[i].workspaceId != calls[j].workspaceId
  }

  ghost predicate OneInsertPerWorkspace(s: BufferState) {
    s.flushing == InsertWorkspaces(s.suspended) && DistinctWorkspaces(s.suspended)
  }

  function Pending(s: BufferState, ws: string): seq<TrackingEvent> {
    InFlight(s.suspended, ws) + Rows(s.buffers, ws)
  }

  /** Nothing is lost, duplicated, reordered or moved to another workspace. */
  ghost predicate Conserved(s: BufferState, ws: string) {
    Rows(s.inserted, ws) + Pending(s, ws) == ForWorkspace(s.added, ws)
  }

  ghost predicate TimerHasWork(s: BufferState, ws: string) {
    ws in s.timers ==> Rows(s.buffers, ws) != []
  }

  /** Inserting what is pending would complete the table, whatever failed inserts left in it. */
  ghost predicate Completable(s: BufferState, ws: string) {
    && Merge(View(Rows(s.table, ws)), Pending(s, ws)) == View(ForWorkspace(s.added, ws))
    && forall e | e in Rows(s.table, ws) :: e in ForWorkspace(s.added, ws)
  }

  ghost predicate WorkspaceInv(s: BufferState, ws: string) {
    Conserved(s, ws) && TimerHasWork(s, ws) && Completable(s, ws)
  }

  ghost predicate Inv(s: BufferState) {
    && OneInsertPerWorkspace(s)
    && (forall c | c in s.suspended :: c.events != [])
    && forall ws: string :: WorkspaceInv(s, ws)
  }

  // ---------------------------------------------------------------- lemmas on in-flight calls

  lemma InFlightAppend(calls: seq<InsertCall>, c: InsertCall, ws: string)
    ensures InFlight(calls + [c], ws) == InFlight(calls, ws) + if c.workspaceId == ws then c.events else []
  {
    assert (calls + [c])[..|calls|] == calls;
  }

  lemma {:induction false} NoCallInFlight(calls: seq<InsertCall>, ws: string)
    requires forall c | c in calls :: c.workspaceId != ws
    ensures InFlight(calls, ws) == []
  {
    if calls != [] {
      var n := |calls| - 1;
      forall c | c in calls[..n] ensures c.workspaceId != ws { assert c in calls; }
      assert calls[n] in calls;
      NoCallInFlight(calls[..n], ws);
    }
  }

  lemma {:induction false} InFlightConcat(a: seq<InsertCall>, b: seq<InsertCall>, ws: string)
    ensures InFlight(a + b, ws) == InFlight(a, ws) + InFlight(b, ws)
    decreases b
  {
    if b == [] {
      assert a + b == a;
    } else {
      var n := |b| - 1;
      InFlightConcat(a, b[..n], ws);
      assert a + b == (a + b[..n]) + [b[n]];
      InFlightAppend(a + b[..n], b[n], ws);
      var more := if b[n].workspaceId == ws then b[n].events else [];
      assert (InFlight(a, ws) + InFlight(b[..n], ws)) + more == InFlight(a, ws) + (InFlight(b[..n], ws) + more);
    }
  }

  lemma InFlightWithout(calls: seq<InsertCall>, i: nat, ws: string)
    requires i < |calls| && DistinctWorkspaces(calls)
    ensures InFlight(calls, calls[i].workspaceId) == calls[i].events
    ensures InFlight(Without(calls, i), ws) == if ws == calls[i].workspaceId then [] else InFlight(calls, ws)
  {
    var a, c, b := calls[..i], calls[i], calls[i + 1..];
    assert calls == (a + [c]) + b;
    NoCallInFlight(a, c.workspaceId) by { assert forall j | 0 <= j < i :: calls[j].workspaceId != c.workspaceId; }
    NoCallInFlight(b, c.workspaceId) by { assert forall j | i < j < |calls| :: calls[j].workspaceId != c.workspaceId; }
    forall w: string ensures InFlight(calls, w) == (InFlight(a, w) + if c.workspaceId == w then c.events else []) + InFlight(b, w)
                     ensures InFlight(Without(calls, i), w) == InFlight(a, w) + InFlight(b, w)
    {
      InFlightConcat(a + [c], b, w);
      InFlightAppend(a, c, w);
      InFlightConcat(a, b, w);
    }
  }

  lemma WithoutDistinct(calls: seq<InsertCall>, i: nat)
    requires i < |calls| && DistinctWorkspaces(calls)
    ensures DistinctWorkspaces(Without(calls, i))
  {
    var rest := Without(calls, i);
    forall j, k | 0 <= j < k < |rest| ensures rest[j].workspaceId != rest[k].workspaceId {
      var j', k' := if j < i then j else j + 1, if k < i then k else k + 1;
      assert rest[j] == calls[j'] && rest[k] == calls[k'];
    }
  }

  lemma WithoutMember(calls: seq<InsertCall>, i: nat, c: InsertCall)
    requires i < |calls| && DistinctWorkspaces(calls)
    ensures c in Without(calls, i) <==> c in calls && c.workspaceId != calls[i].workspaceId
  {
    var before, after := calls[..i], calls[i + 1..];
    assert calls == before + [calls[i]] + after;
    if j :| 0 <= j < |before| && before[j] == c { assert calls[j] == c; }
    if j :| 0 <= j < |after| && after[j] == c { assert calls[i + 1 + j] == c; }
  }

  lemma WithoutMembers(calls: seq<InsertCall>, i: nat)
    requires i < |calls| && DistinctWorkspaces(calls)
    ensures forall c :: c in Without(calls, i) <==> c in calls && c.workspaceId != calls[i].workspaceId
    ensures InsertWorkspaces(Without(calls, i)) == InsertWorkspaces(calls) - {calls[i].workspaceId}
  {
    forall c ensures c in Without(calls, i) <==> c in calls && c.workspaceId != calls[i].workspaceId {
      WithoutMember(calls, i, c);
    }
  }

  // ---------------------------------------------------------------- the invariant is kept

  /** Moving events between a buffer and an insert does not matter as long as their order stays. */
  lemma SamePending(s: BufferState, t: BufferState, w: string)
    requires WorkspaceInv(s, w)
    requires t.added == s.added && Rows(t.inserted, w) == Rows(s.inserted, w) && Rows(t.table, w) == Rows(s.table, w)
    requires Pending(t, w) == Pending(s, w) && TimerHasWork(t, w)
    ensures WorkspaceInv(t, w)
  {
  }

  lemma FlushKeepsPending(s: BufferState, ws: string, w: string)
    requires OneInsertPerWorkspace(s)
    ensures Pending(FlushStep(s, ws), w) == Pending(s, w)
  {
    var t := FlushStep(s, ws);
    if t.suspended != s.suspended {
      InFlightAppend(s.suspended, InsertCall(ws, s.buffers[ws]), w);
      forall d | d in s.suspended ensures d.workspaceId != ws { assert d.workspaceId in s.flushing; }
      NoCallInFlight(s.suspended, ws);
    }
  }

  lemma FlushKeepsOneInsert(s: BufferState, ws: string)
    requires OneInsertPerWorkspace(s)
    ensures OneInsertPerWorkspace(FlushStep(s, ws))
  {
    var t := FlushStep(s, ws);
    if t.suspended != s.suspended {
      var c := InsertCall(ws, s.buffers[ws]);
      assert t.suspended == s.suspended + [c];
      forall d | d in s.suspended ensures d.workspaceId != ws { assert d.workspaceId in s.flushing; }
      assert InsertWorkspaces(t.suspended) == InsertWorkspaces(s.suspended) + {ws} by {
        assert c in t.suspended;
      }
      assert forall j | 0 <= j < |s.suspended| :: s.suspended[j] in s.suspended;
    }
  }

  lemma FlushKeepsInv(s: BufferState, ws: string)
    requires Inv(s)
    ensures Inv(FlushStep(s, ws))
    ensures FlushStep(s, ws).added == s.added && FlushStep(s, ws).buffers.Keys == s.buffers.Keys
  {
    FlushKeepsOneInsert(s, ws);
    forall w: string ensures WorkspaceInv(FlushStep(s, ws), w) {
      FlushKeepsPending(s, ws, w);
      SamePending(s, FlushStep(s, ws), w);
    }
  }

  lemma PushConserves(s: BufferState, e: TrackingEvent, w: string)
    requires Conserved(s, w)
    ensures Conserved(Push(s, e), w)
    ensures Pending(Push(s, e), w) == Pending(s, w) + if w == e.workspaceId then [e] else []
    ensures ForWorkspace(Push(s, e).added, w) == ForWorkspace(s.added, w) + if w == e.workspaceId then [e] else []
  {
    ForWorkspaceAppend(s.added, e, w);
    if w == e.workspaceId {
      assert InFlight(s.suspended, w) + (Rows(s.buffers, w) + [e]) == Pending(s, w) + [e];
      assert Rows(s.inserted, w) + (Pending(s, w) + [e]) == (Rows(s.inserted, w) + Pending(s, w)) + [e];
    }
  }

  lemma PushKeepsWorkspaceInv(s: BufferState, e: TrackingEvent, w: string)
    requires WorkspaceInv(s, w)
    ensures WorkspaceInv(Push(s, e), w)
  {
    PushConserves(s, e, w);
    if w == e.workspaceId {
      MergeAppend(View(Rows(s.table, w)), Pending(s, w), [e]);
      MergeAppend(map[], ForWorkspace(s.added, w), [e]);
    }
  }

  lemma InsertFirstPart(inserted: seq<TrackingEvent>, table: seq<TrackingEvent>, events: seq<TrackingEvent>,
                        rest: seq<TrackingEvent>, all: seq<TrackingEvent>)
    requires inserted + (events + rest) == all
    requires Merge(View(table), events + rest) == View(all)
    requires forall e | e in table :: e in all
    ensures (inserted + events) + rest == all
    ensures Merge(View(table + events), rest) == View(all)
    ensures forall e | e in table + events :: e in all
  {
    InsertingInTwoParts(table, events, rest);
  }

  lemma SuccessKeepsWorkspaceInv(s: BufferState, i: nat, w: string)
    requires i < |s.suspended| && DistinctWorkspaces(s.suspended) && WorkspaceInv(s, w)
    ensures WorkspaceInv(SuccessStep(s, i), w)
  {
    var t := SuccessStep(s, i);
    InFlightWithout(s.suspended, i, w);
    if w == s.suspended[i].workspaceId {
      var events := s.suspended[i].events;
      assert Pending(s, w) == events + Pending(t, w);
      InsertFirstPart(Rows(s.inserted, w), Rows(s.table, w), events, Pending(t, w), ForWorkspace(s.added, w));
    } else {
      SamePending(s, t, w);
    }
  }

  lemma FailureKeepsWorkspaceInv(s: BufferState, i: nat, applied: seq<TrackingEvent>, w: string)
    requires i < |s.suspended| && DistinctWorkspaces(s.suspended) && WorkspaceInv(s, w)
    requires s.suspended[i].events != []
    requires forall e | e in applied :: e in s.suspended[i].events
    ensures WorkspaceInv(FailureStep(s, i, applied), w)
  {
    var t := FailureStep(s, i, applied);
    InFlightWithout(s.suspended, i, w);
    if w == s.suspended[i].workspaceId {
      assert Pending(t, w) == Pending(s, w);
      MergeAppend(map[], Rows(s.table, w), applied);
      StrayRowsAbsorbed(View(Rows(s.table, w)), applied, Pending(s, w));
      assert forall e | e in applied :: e in Pending(s, w);
    } else {
      SamePending(s, t, w);
    }
  }

  lemma {:induction false} FlushEachKeepsInv(s: BufferState, order: seq<string>)
    requires Inv(s)
    ensures Inv(FlushEach(s, order))
    ensures FlushEach(s, order).added == s.added
    ensures FlushEach(s, order).buffers.Keys == s.buffers.Keys
  {
    if order != [] {
      FlushEachKeepsInv(s, order[..|order| - 1]);
      FlushKeepsInv(FlushEach(s, order[..|order| - 1]), order[|order| - 1]);
    }
  }

  /** Whatever the code does between two awaits keeps the invariant. */
  lemma StepKeepsInv(s: BufferState, step: BufferStep)
    requires Inv(s) && Enabled(s, step)
    ensures Inv(Next(s, step))
  {
    match step {
      case Add(e) =>
        forall w: string ensures WorkspaceInv(Push(s, e), w) {
          assert WorkspaceInv(s, w);
          PushKeepsWorkspaceInv(s, e, w);
        }
        FlushKeepsInv(Push(s, e), e.workspaceId);
      case Flush(ws) => FlushKeepsInv(s, ws);
      case TimerFires(ws) => FlushKeepsInv(s, ws);
      case InsertSucceeds(i) =>
        WithoutMembers(s.suspended, i);
        WithoutDistinct(s.suspended, i);
        forall w: string ensures WorkspaceInv(Next(s, step), w) {
          assert WorkspaceInv(s, w);
          SuccessKeepsWorkspaceInv(s, i, w);
        }
      case InsertFails(i, applied) =>
        WithoutMembers(s.suspended, i);
        WithoutDistinct(s.suspended, i);
        forall w: string ensures WorkspaceInv(Next(s, step), w) {
          assert WorkspaceInv(s, w);
          assert s.suspended[i] in s.suspended;
          FailureKeepsWorkspaceInv(s, i, applied, w);
        }
      case Shutdown(order) =>
        var stopped := s.(timers := {});
        forall w: string ensures WorkspaceInv(stopped, w) { assert WorkspaceInv(s, w); }
        FlushEachKeepsInv(stopped, order);
    }
  }

  // ---------------------------------------------------------------- results over whole runs

  lemma EmptyBufferInv()
    ensures Inv(EmptyBuffer)
  {
    forall w: string ensures WorkspaceInv(EmptyBuffer, w) {}
  }

  /** In every state of every run: per workspace, inserted ++ in flight ++ buffered is what was added, in
      order; at most one insert is in flight; a timer is armed only over a non-empty buffer. */
  lemma {:induction false} RunKeepsInv(states: seq<BufferState>, steps: seq<BufferStep>, n: nat)
    requires IsRun(states, steps) && n < |states|
    ensures Inv(states[n])
  {
    if n == 0 {
      EmptyBufferInv();
    } else {
      RunKeepsInv(states, steps, n - 1);
      StepKeepsInv(states[n - 1], steps[n - 1]);
    }
  }

  ghost predicate Drained(s: BufferState) {
    s.suspended == [] && forall ws | ws in s.buffers :: s.buffers[ws] == []
  }

  lemma DrainedView(s: BufferState, ws: string)
    requires Inv(s) && Drained(s)
    ensures Rows(s.inserted, ws) == ForWorkspace(s.added, ws)
    ensures View(Rows(s.table, ws)) == View(ForWorkspace(s.added, ws))
  {
    assert WorkspaceInv(s, ws);
    assert Pending(s, ws) == [];
  }

  /** Exactly-once view: after any interleaving of adds, flushes, timers and inserts that succeed, fail,
      or apply some rows and then fail, a drained buffer has produced the table that inserting each
      added event once, in order, would have produced. */
  lemma ExactlyOnceView(states: seq<BufferState>, steps: seq<BufferStep>, n: nat, ws: string)
    requires IsRun(states, steps) && n < |states|
    requires Drained(states[n])
    ensures Rows(states[n].inserted, ws) == ForWorkspace(states[n].added, ws)
    ensures View(Rows(states[n].table, ws)) == View(ForWorkspace(states[n].added, ws))
  {
    RunKeepsInv(states, steps, n);
    DrainedView(states[n], ws);
  }

  // ---------------------------------------------------------------- what the code does not keep

  /** Some timer or insert will get to the events that are buffered for this workspace. */
  ghost predicate Armed(s: BufferState, ws: string) {
    Rows(s.buffers, ws) != [] ==> ws in s.timers
  }

  /** What leaves buffered events without a timer: a failed insert, and a flush requested
      over a non-empty buffer while an insert of the same workspace is in flight. */
  ghost predicate Strands(s: BufferState, step: BufferStep, ws: string) {
    match step
    case Add(e) => e.workspaceId == ws && ws in s.flushing && |Rows(s.buffers, ws)| + 1 >= MAX_BUFFER_SIZE
    case Flush(w) => w == ws && ws in s.flushing && Rows(s.buffers, ws) != []
    case TimerFires(w) => w == ws && ws in s.flushing && Rows(s.buffers, ws) != []
    case InsertSucceeds(_) => false
    case InsertFails(i, _) => i < |s.suspended| && s.suspended[i].workspaceId == ws && ws !in s.timers
    case Shutdown(order) => ws in s.flushing && Rows(s.buffers, ws) != []
  }

  lemma {:induction false} FlushEachEffect(s: BufferState, order: seq<string>, ws: string)
    ensures var t := FlushEach(s, order);
            && (ws in t.timers <==> ws in s.timers && ws !in order)
            && Rows(t.buffers, ws) == (if ws in order && ws !in s.flushing then [] else Rows(s.buffers, ws))
            && (ws in s.flushing ==> ws in t.flushing)
            && (ws in t.flushing ==> ws in s.flushing || Rows(t.buffers, ws) == [])
  {
    if order != [] {
      var n := |order| - 1;
      FlushEachEffect(s, order[..n], ws);
      assert order == order[..n] + [order[n]];
    }
  }

  lemma AddArms(s: BufferState, e: TrackingEvent, ws: string)
    requires Armed(s, ws)
    ensures Armed(AddStep(s, e), ws) <==> !Strands(s, Add(e), ws)
  {
  }

  /** A workspace whose buffer was covered by a timer stays covered by a step exactly when the step is not
      one of those. */
  lemma ArmedUnlessStranded(s: BufferState, step: BufferStep, ws: string)
    requires Inv(s) && Enabled(s, step) && Armed(s, ws)
    ensures Armed(Next(s, step), ws) <==> !Strands(s, step, ws)
  {
    match step {
      case Add(e) => AddArms(s, e, ws);
      case InsertFails(i, applied) => assert s.suspended[i] in s.suspended;
      case Shutdown(order) => FlushEachEffect(s.(timers := {}), order, ws);
      case _ =>
    }
  }

  /** Shutdown hands a workspace's buffered events to an insert unless an insert of that workspace is
      already in flight, in which case they stay in the buffer. */
  lemma ShutdownEmptiesBuffer(s: BufferState, order: seq<string>, ws: string)
    requires Inv(s) && Enabled(s, Shutdown(order))
    ensures Rows(Next(s, Shutdown(order)).buffers, ws) == [] <==> (Rows(s.buffers, ws) == [] || ws !in s.flushing)
  {
    FlushEachEffect(s.(timers := {}), order, ws);
  }

  /** Buffered events without a timer. */
  ghost predicate Stranded(s: BufferState, ws: string) {
    Rows(s.buffers, ws) != [] && ws !in s.timers
  }

  lemma {:induction false} StrandedThroughFlushes(s: BufferState, order: seq<string>, ws: string)
    requires Stranded(s, ws)
    ensures Stranded(FlushEach(s, order), ws) || Rows(FlushEach(s, order).buffers, ws) == []
  {
    FlushEachEffect(s, order, ws);
  }

  lemma StepKeepsStranded(s: BufferState, step: BufferStep, ws: string)
    requires Enabled(s, step) && Stranded(s, ws)
    ensures Stranded(Next(s, step), ws) || Rows(Next(s, step).buffers, ws) == []
  {
    match step {
      case Shutdown(order) => StrandedThroughFlushes(s.(timers := {}), order, ws);
      case _ =>
    }
  }

  /** Stranding lasts: however many events are added, no step arms the timer again before one takes the events out
      of the buffer, because only the first event of an empty buffer does. */
  lemma {:induction false} StrandedUntilTaken(states: seq<BufferState>, steps: seq<BufferStep>, i: nat, j: nat, ws: string)
    requires IsRun(states, steps) && i <= j < |states| && Stranded(states[i], ws)
    requires forall k | i < k <= j :: Rows(states[k].buffers, ws) != []
    ensures Stranded(states[j], ws)
    decreases j - i
  {
    if i < j {
      StrandedUntilTaken(states, steps, i, j - 1, ws);
      StepKeepsStranded(states[j - 1], steps[j - 1], ws);
    }
  }

  lemma FirstAdd(s: BufferState, e: TrackingEvent)
    requires Rows(s.buffers, e.workspaceId) == []
    ensures AddStep(s, e) == s.(buffers := s.buffers[e.workspaceId := [e]], timers := s.timers + {e.workspaceId}, added := s.added + [e])
  {
    assert [] + [e] == [e];
  }

  /** It happens: an event is added, its flush fails, and the event is left without a timer. */
  lemma StrandedByFailure(e: TrackingEvent) returns (states: seq<BufferState>, steps: seq<BufferStep>)
    ensures IsRun(states, steps) && |steps| == 3 && Stranded(states[3], e.workspaceId)
  {
    var ws := e.workspaceId;
    steps := [Add(e), Flush(ws), InsertFails(0, [])];
    var s1 := Next(EmptyBuffer, steps[0]);
    FirstAdd(EmptyBuffer, e);
    assert s1.buffers == map[ws := [e]] && s1.suspended == [];
    var s2 := Next(s1, steps[1]);
    assert s2.suspended == [InsertCall(ws, [e])] && s2.timers == {};
    var s3 := Next(s2, steps[2]);
    assert Rows(s3.buffers, ws) == [e];
    states := [EmptyBuffer, s1, s2, s3];
    forall i | 0 <= i < 3 ensures Enabled(states[i], steps[i]) && states[i + 1] == Next(states[i], steps[i]) {
      if i == 0 {} else if i == 1 {} else {}
    }
  }

  /** And at shutdown: a second event arrives while the first is being inserted, and stays in memory. */
  lemma LeftBehindAtShutdown(e: TrackingEvent, f: TrackingEvent) returns (states: seq<BufferState>, steps: seq<BufferStep>)
    requires e.workspaceId == f.workspaceId
    ensures IsRun(states, steps) && |steps| == 4 && steps[3].Shutdown?
    ensures Stranded(states[4], e.workspaceId) && Rows(states[4].buffers, e.workspaceId) == [f]
  {
    var ws := e.workspaceId;
    steps := [Add(e), Flush(ws), Add(f), Shutdown([ws])];
    var s1 := Next(EmptyBuffer, steps[0]);
    FirstAdd(EmptyBuffer, e);
    assert s1.buffers == map[ws := [e]] && s1.suspended == [];
    var s2 := Next(s1, steps[1]);
    assert s2.buffers == map[ws := []] && s2.flushing == {ws};
    var s3 := Next(s2, steps[2]);
    FirstAdd(s2, f);
    assert s3.buffers == map[ws := [f]] && s3.flushing == {ws};
    FlushEachEffect(s3.(timers := {}), [ws], ws);
    var s4 := Next(s3, steps[3]);
    states := [EmptyBuffer, s1, s2, s3, s4];
    forall i | 0 <= i < 4 ensures Enabled(states[i], steps[i]) && states[i + 1] == Next(states[i], steps[i]) {
      if i == 0 {} else if i == 1 {} else if i == 2 {} else {}
    }
  }

  // ---------------------------------------------------------------- the service

  ghost function WorkspacesOf(events: seq<TrackingEvent>): set<string> {
    set e | e in events :: e.workspaceId
  }

  lemma OneMoreEvent(events: seq<TrackingEvent>, e: TrackingEvent)
    ensures WorkspacesOf(events + [e]) == WorkspacesOf(events) + {e.workspaceId}
    ensures forall ws :: ForWorkspace(events + [e], ws) == ForWorkspace(events, ws) + if e.workspaceId == ws then [e] else []
  {
    assert (events + [e])[..|events|] == events;
    assert forall f :: f in events + [e] <==> f in events || f == e;
    forall ws | ws in WorkspacesOf(events) + {e.workspaceId} ensures ws in WorkspacesOf(events + [e]) {
      if ws == e.workspaceId {
        assert e in events + [e];
      } else {
        var f :| f in events && f.workspaceId == ws;
        assert f in events + [e];
      }
    }
  }

  ghost predicate IsGrouped(groups: map<string, seq<TrackingEvent>>, events: seq<TrackingEvent>) {
    groups.Keys == WorkspacesOf(events) && forall ws | ws in groups :: groups[ws] == ForWorkspace(events, ws)
  }

  /** A list of all members of a set, without repetition. */
  ghost predicate ListsOnce(order: seq<string>, workspaces: set<string>) {
    (forall ws :: ws in order <==> ws in workspaces) && forall i, j | 0 <= i < j < |order| :: order[i] != order[j]
  }

  lemma GroupedWithOneMore(groups: map<string, seq<TrackingEvent>>, events: seq<TrackingEvent>, e: TrackingEvent)
    requires IsGrouped(groups, events)
    ensures IsGrouped(groups[e.workspaceId := Rows(groups, e.workspaceId) + [e]], events + [e])
  {
    OneMoreEvent(events, e);
    GroupOf(groups, events, e.workspaceId);
  }

  lemma GroupOf(groups: map<string, seq<TrackingEvent>>, events: seq<TrackingEvent>, ws: string)
    requires IsGrouped(groups, events)
    ensures Rows(groups, ws) == ForWorkspace(events, ws)
  {
    if ws !in groups {
      forall e | e in events ensures e.workspaceId != ws { assert e.workspaceId in WorkspacesOf(events); }
      NoneForWorkspace(events, ws);
    }
  }

  /** The events of a batch in the order in which they are added: workspace by workspace. */
  function InGroups(order: seq<string>, groups: map<string, seq<TrackingEvent>>): seq<TrackingEvent> {
    if order == [] then [] else InGroups(order[..|order| - 1], groups) + Rows(groups, order[|order| - 1])
  }

  lemma {:induction false} ForWorkspaceConcat(a: seq<TrackingEvent>, b: seq<TrackingEvent>, ws: string)
    ensures ForWorkspace(a + b, ws) == ForWorkspace(a, ws) + ForWorkspace(b, ws)
    decreases b
  {
    if b == [] {
      assert a + b == a;
    } else {
      var n := |b| - 1;
      ForWorkspaceConcat(a, b[..n], ws);
      assert a + b == (a + b[..n]) + [b[n]];
      ForWorkspaceAppend(a + b[..n], b[n], ws);
      var last := if b[n].workspaceId == ws then [b[n]] else [];
      assert (ForWorkspace(a, ws) + ForWorkspace(b[..n], ws)) + last == ForWorkspace(a, ws) + (ForWorkspace(b[..n], ws) + last);
    }
  }

  lemma {:induction false} ForWorkspaceTwice(events: seq<TrackingEvent>, w: string, ws: string)
    ensures ForWorkspace(ForWorkspace(events, w), ws) == if w == ws then ForWorkspace(events, ws) else []
  {
    if events != [] {
      var n := |events| - 1;
      ForWorkspaceTwice(events[..n], w, ws);
      if events[n].workspaceId == w {
        ForWorkspaceAppend(ForWorkspace(events[..n], w), events[n], ws);
      } else {
        assert ForWorkspace(events, w) == ForWorkspace(events[..n], w);
      }
    }
  }

  ghost predicate AreGroups(order: seq<string>, groups: map<string, seq<TrackingEvent>>, events: seq<TrackingEvent>) {
    && (forall w | w in order :: w in groups && groups[w] == ForWorkspace(events, w))
    && forall i, j | 0 <= i < j < |order| :: order[i] != order[j]
  }

  lemma {:induction false} GroupsKeepOrder(order: seq<string>, groups: map<string, seq<TrackingEvent>>,
                                           events: seq<TrackingEvent>, ws: string)
    requires AreGroups(order, groups, events)
    ensures ForWorkspace(InGroups(order, groups), ws) == if ws in order then ForWorkspace(events, ws) else []
  {
    if order != [] {
      var before, last := order[..|order| - 1], order[|order| - 1];
      assert order == before + [last];
      assert AreGroups(before, groups, events);
      GroupsKeepOrder(before, groups, events, ws);
      ForWorkspaceConcat(InGroups(before, groups), ForWorkspace(events, last), ws);
      ForWorkspaceTwice(events, last, ws);
      if ws == last {
        assert ws !in before;
      }
    }
  }

  /** Adding a batch group by group adds the events of every workspace in the batch's order. */
  lemma BatchKeepsOrder(order: seq<string>, groups: map<string, seq<TrackingEvent>>, events: seq<TrackingEvent>, ws: string)
    requires IsGrouped(groups, events) && ListsOnce(order, groups.Keys)
    ensures ForWorkspace(InGroups(order, groups), ws) == ForWorkspace(events, ws)
  {
    GroupsKeepOrder(order, groups, events, ws);
    GroupOf(groups, events, ws);
  }

  class EventBufferService {
    var buffers: map<string, seq<TrackingEvent>>
    var flushTimers: set<string>
    var flushingWorkspaces: set<string>
    /** The flush calls waiting at their insert: each keeps its own events in a local variable. */
    var suspended: seq<InsertCall>
    ghost var added: seq<TrackingEvent>
    ghost var inserted: map<string, seq<TrackingEvent>>
    ghost var table: map<string, seq<TrackingEvent>>

    ghost function Model(): BufferState
      reads this
    {
      BufferState(buffers, flushTimers, flushingWorkspaces, suspended, added, inserted, table)
    }

    constructor ()
      ensures Model() == EmptyBuffer
    {
      buffers, flushTimers, flushingWorkspaces, suspended := map[], {}, {}, [];
      added, inserted, table := [], map[], map[];
    }

    method StartFlushTimer(workspaceId: string)
      modifies this`flushTimers
      ensures flushTimers == old(flushTimers) + {workspaceId}
    {
      if workspaceId in flushTimers { return; }
      flushTimers := flushTimers + {workspaceId};
    }

    method StopFlushTimer(workspaceId: string)
      modifies this`flushTimers
      ensures flushTimers == old(flushTimers) - {workspaceId}
    {
      if workspaceId in flushTimers {
        flushTimers := flushTimers - {workspaceId};
      }
    }

    /** `flush` up to its insert. */
    method Flush(workspaceId: string) returns (inserting: bool)
      modifies this
      ensures Model() == FlushStep(old(Model()), workspaceId)
      ensures inserting <==> suspended != old(suspended)
    {
      StopFlushTimer(workspaceId);
      if workspaceId !in buffers || |buffers[workspaceId]| == 0 || workspaceId in flushingWorkspaces {
        return false;
      }
      flushingWorkspaces := flushingWorkspaces + {workspaceId};
      var eventsToFlush := buffers[workspaceId];
      buffers := buffers[workspaceId := []];
      suspended := suspended + [InsertCall(workspaceId, eventsToFlush)];
      return true;
    }

    /** `flush` from a successful insert on. */
    method InsertSucceeded(i: nat)
      requires i < |suspended|
      modifies this
      ensures Model() == SuccessStep(old(Model()), i)
    {
      var workspaceId, eventsToFlush := suspended[i].workspaceId, suspended[i].events;
      suspended := Without(suspended, i);
      inserted := inserted[workspaceId := Rows(inserted, workspaceId) + eventsToFlush];
      table := table[workspaceId := Rows(table, workspaceId) + eventsToFlush];
      flushingWorkspaces := flushingWorkspaces - {workspaceId};
    }

    /** `flush` from a failed insert on: the events go back to the front of the buffer. */
    method InsertFailed(i: nat, ghost applied: seq<TrackingEvent>)
      requires i < |suspended|
      modifies this
      ensures Model() == FailureStep(old(Model()), i, applied)
    {
      var workspaceId, eventsToFlush := suspended[i].workspaceId, suspended[i].events;
      suspended := Without(suspended, i);
      table := table[workspaceId := Rows(table, workspaceId) + applied];
      var currentBuffer := if workspaceId in buffers then buffers[workspaceId] else [];
      buffers := buffers[workspaceId := eventsToFlush + currentBuffer];
      flushingWorkspaces := flushingWorkspaces - {workspaceId};
    }

    /** `add` up to its await: of a flush that it started, if any. */
    method Add(event: TrackingEvent) returns (inserting: bool)
      modifies this
      ensures Model() == AddStep(old(Model()), event)
      ensures inserting <==> suspended != old(suspended)
    {
      inserting := false;
      var workspaceId := event.workspaceId;
      if workspaceId !in buffers {
        buffers := buffers[workspaceId := []];
      }
      buffers := buffers[workspaceId := buffers[workspaceId] + [event]];
      added := added + [event];
      if |buffers[workspaceId]| == 1 {
        StartFlushTimer(workspaceId);
      }
      if |buffers[workspaceId]| >= MAX_BUFFER_SIZE {
        inserting := Flush(workspaceId);
      }
    }

    /** The synchronous part of shutdown: stop every timer, then start a flush of every workspace. */
    method OnModuleDestroy() returns (ghost order: seq<string>)
      modifies this
      ensures Enabled(old(Model()), Shutdown(order)) && Model() == Next(old(Model()), Shutdown(order))
    {
      var armed := flushTimers;
      while armed != {}
        invariant Model() == old(Model()).(timers := flushTimers)
        invariant flushTimers == armed
        decreases armed
      {
        var workspaceId :| workspaceId in armed;
        StopFlushTimer(workspaceId);
        armed := armed - {workspaceId};
      }
      order := [];
      var keys := buffers.Keys;
      while keys != {}
        invariant Model() == FlushEach(old(Model()).(timers := {}), order)
        invariant keys !! (set ws | ws in order)
        invariant keys + (set ws | ws in order) == old(buffers).Keys
        decreases keys
      {
        var workspaceId :| workspaceId in keys;
        ghost var before := order;
        order := order + [workspaceId];
        assert order[..|before|] == before;
        var inserting := Flush(workspaceId);
        keys := keys - {workspaceId};
      }
    }

    /** The grouping loop of `addBatch`: workspaces in order of first appearance, with their events. */
    method GroupByWorkspace(events: seq<TrackingEvent>) returns (order: seq<string>, groups: map<string, seq<TrackingEvent>>)
      ensures groups.Keys == WorkspacesOf(events)
      ensures forall ws | ws in groups :: groups[ws] == ForWorkspace(events, ws)
      ensures ListsOnce(order, groups.Keys)
      ensures forall ws :: ForWorkspace(InGroups(order, groups), ws) == ForWorkspace(events, ws)
    {
      order, groups := [], map[];
      for i := 0 to |events|
        invariant IsGrouped(groups, events[..i]) && ListsOnce(order, groups.Keys)
      {
        var workspaceId := events[i].workspaceId;
        assert events[..i + 1] == events[..i] + [events[i]];
        GroupedWithOneMore(groups, events[..i], events[i]);
        if workspaceId !in groups {
          groups := groups[workspaceId := []];
          order := order + [workspaceId];
        }
        groups := groups[workspaceId := groups[workspaceId] + [events[i]]];
      }
      assert events[..|events|] == events;
      forall ws ensures ForWorkspace(InGroups(order, groups), ws) == ForWorkspace(events, ws) {
        BatchKeepsOrder(order, groups, events, ws);
      }
    }
  }
}
