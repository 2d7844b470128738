/** Concurrent calls of `addBatch`: each adds its events one by one, waits for the insert that an add started, and
    gives up when that insert fails. */
module EventBatches {
  import opened EventTable
  import EB = EventBuffer

  /** One call of `addBatch`: the events it was given, its workspaces in their order, and its events group by group, of
      which it has added the first `next`. `waiting` is the workspace whose insert it awaits. */
  datatype Batch = Batch(
    source: seq<TrackingEvent>,
    order: seq<string>,
    queue: seq<TrackingEvent>,
    next: nat,
    waiting: Option<string>,
    failed: bool)

  /** Which call added an event, and at which place of its queue the event stood. */
  datatype Origin = Origin(batch: nat, index: nat)

  /** The buffer, the calls so far, and a record of where each added event came from. */
  datatype System = System(buffer: EB.BufferState, batches: seq<Batch>, origins: seq<Origin>)

  datatype Step =
    | StartBatch(events: seq<TrackingEvent>, order: seq<string>)
    | AddNext(batch: nat)
    | BufferStep(step: EB.BufferStep)

  const EmptySystem := System(EB.EmptyBuffer, [], [])

  ghost function Grouped(events: seq<TrackingEvent>): map<string, seq<TrackingEvent>> {
    map ws | ws in EB.WorkspacesOf(events) :: EB.ForWorkspace(events, ws)
  }

  ghost function NewBatch(events: seq<TrackingEvent>, order: seq<string>): Batch {
    Batch(events, order, EB.InGroups(order, Grouped(events)), 0, None, false)
  }

  function Advanced(b: Batch, waiting: Option<string>): Batch {
    b.(next := b.next + 1, waiting := waiting)
  }

  /** An insert settles for the call that awaits it. */
  function Settle(b: Batch, ws: string, success: bool): Batch {
    if b.waiting == Some(ws) then b.(waiting := None, failed := !success) else b
  }

  function SettleEach(batches: seq<Batch>, ws: string, success: bool): (r: seq<Batch>)
    ensures |r| == |batches|
    ensures forall i | 0 <= i < |r| :: r[i] == Settle(batches[i], ws, success)
  {
    seq(|batches|, i requires 0 <= i < |batches| => Settle(batches[i], ws, success))
  }

  ghost function BatchesAfter(s: System, step: EB.BufferStep): seq<Batch>
    requires EB.Enabled(s.buffer, step)
  {
    match step
    case InsertSucceeds(i) => SettleEach(s.batches, s.buffer.suspended[i].workspaceId, true)
    case InsertFails(i, _) => SettleEach(s.batches, s.buffer.suspended[i].workspaceId, false)
    case _ => s.batches
  }

  ghost predicate Enabled(s: System, step: Step) {
    match step
    case StartBatch(events, order) => EB.ListsOnce(order, EB.WorkspacesOf(events))
    case AddNext(b) =>
      b < |s.batches| && !s.batches[b].failed && s.batches[b].waiting == None && s.batches[b].next < |s.batches[b].queue|
    case BufferStep(buffered) => !buffered.Add? && EB.Enabled(s.buffer, buffered)
  }

  ghost function AddNextStep(s: System, b: nat): System
    requires Enabled(s, AddNext(b))
  {
    var batch := s.batches[b];
    var e := batch.queue[batch.next];
    var t := EB.AddStep(s.buffer, e);
    System(t, s.batches[b := Advanced(batch, if t.suspended == s.buffer.suspended then None else Some(e.workspaceId))],
           s.origins + [Origin(b, batch.next)])
  }

  ghost function Next(s: System, step: Step): System
    requires Enabled(s, step)
  {
    match step
    case StartBatch(events, order) => s.(batches := s.batches + [NewBatch(events, order)])
    case AddNext(b) => AddNextStep(s, b)
    case BufferStep(buffered) => s.(buffer := EB.Next(s.buffer, buffered), batches := BatchesAfter(s, buffered))
  }

  ghost predicate IsRun(states: seq<System>, steps: seq<Step>) {
    && |states| == |steps| + 1
    && states[0] == EmptySystem
    && forall i | 0 <= i < |steps| :: Enabled(states[i], steps[i]) && states[i + 1] == Next(states[i], steps[i])
  }

  // ---------------------------------------------------------------- invariant

  ghost predicate WellGrouped(b: Batch) {
    EB.ListsOnce(b.order, EB.WorkspacesOf(b.source)) && b.queue == EB.InGroups(b.order, Grouped(b.source)) && b.next <= |b.queue|
  }

  /** A call that waits has not failed, and the insert it waits for is under way. */
  ghost predicate WaitsSoundly(b: Batch, flushing: set<string>) {
    b.waiting.Some? ==> !b.failed && b.next > 0 && b.waiting.value in flushing
  }

  ghost predicate BatchesInv(batches: seq<Batch>, flushing: set<string>) {
    && (forall i | 0 <= i < |batches| :: WellGrouped(batches[i]) && WaitsSoundly(batches[i], flushing))
    && forall i, j | 0 <= i < j < |batches| && batches[i].waiting.Some? :: batches[i].waiting != batches[j].waiting
  }

  ghost predicate OriginFits(batches: seq<Batch>, o: Origin, e: TrackingEvent) {
    o.batch < |batches| && o.index < batches[o.batch].next <= |batches[o.batch].queue| && batches[o.batch].queue[o.index] == e
  }

  ghost predicate HasOrigin(origins: seq<Origin>, b: nat, i: nat) {
    Origin(b, i) in origins
  }

  /** Each call added its events in the order of its queue. */
  ghost predicate InOrder(origins: seq<Origin>) {
    forall k, l | 0 <= k < l < |origins| && origins[k].batch == origins[l].batch :: origins[k].index < origins[l].index
  }

  /** The added events and the parts of the queues that were added are the same, one by one. */
  ghost predicate OriginsInv(batches: seq<Batch>, added: seq<TrackingEvent>, origins: seq<Origin>) {
    && |origins| == |added| && InOrder(origins)
    && (forall k | 0 <= k < |added| :: OriginFits(batches, origins[k], added[k]))
    && forall b, i | 0 <= b < |batches| && 0 <= i < batches[b].next :: HasOrigin(origins, b, i)
  }

  /** What a call added, in the order of the buffer. */
  function AddedBy(added: seq<TrackingEvent>, origins: seq<Origin>, b: nat): seq<TrackingEvent>
    requires |origins| == |added|
  {
    if added == [] then []
    else
      var n := |added| - 1;
      AddedBy(added[..n], origins[..n], b) + if origins[n].batch == b then [added[n]] else []
  }

  ghost predicate AddsPrefix(batches: seq<Batch>, added: seq<TrackingEvent>, origins: seq<Origin>) {
    && |origins| == |added|
    && (forall o | o in origins :: o.batch < |batches|)
    && forall b | 0 <= b < |batches| ::
         batches[b].next <= |batches[b].queue| && AddedBy(added, origins, b) == batches[b].queue[..batches[b].next]
  }

  ghost predicate Inv(s: System) {
    && EB.Inv(s.buffer)
    && BatchesInv(s.batches, s.buffer.flushing)
    && OriginsInv(s.batches, s.buffer.added, s.origins)
    && AddsPrefix(s.batches, s.buffer.added, s.origins)
  }

  // ---------------------------------------------------------------- steps of the buffer

  lemma AddEffect(s: EB.BufferState, e: TrackingEvent)
    ensures var t := EB.AddStep(s, e);
            && t.added == s.added + [e]
            && s.flushing <= t.flushing
            && (t.suspended != s.suspended ==> e.workspaceId in t.flushing && e.workspaceId !in s.flushing)
  {
  }

  /** The workspace whose insert a step settles. */
  ghost function Settles(s: EB.BufferState, step: EB.BufferStep): Option<string>
    requires EB.Enabled(s, step)
  {
    match step
    case InsertSucceeds(i) => Some(s.suspended[i].workspaceId)
    case InsertFails(i, _) => Some(s.suspended[i].workspaceId)
    case _ => None
  }

  lemma BufferStepEffect(s: EB.BufferState, step: EB.BufferStep)
    requires EB.Inv(s) && EB.Enabled(s, step) && !step.Add?
    ensures EB.Next(s, step).added == s.added
    ensures forall ws | ws in s.flushing && Settles(s, step) != Some(ws) :: ws in EB.Next(s, step).flushing
  {
    match step {
      case Shutdown(order) =>
        var stopped := s.(timers := {});
        forall w: string ensures EB.WorkspaceInv(stopped, w) { assert EB.WorkspaceInv(s, w); }
        EB.FlushEachKeepsInv(stopped, order);
        forall ws | ws in s.flushing ensures ws in EB.Next(s, step).flushing {
          EB.FlushEachEffect(stopped, order, ws);
        }
      case _ =>
    }
  }

  // ---------------------------------------------------------------- the invariant is kept

  lemma SettleKeepsBatches(batches: seq<Batch>, flushing: set<string>, later: set<string>, ws: string, success: bool)
    requires BatchesInv(batches, flushing) && forall w | w in flushing && w != ws :: w in later
    ensures BatchesInv(SettleEach(batches, ws, success), later)
  {
    var r := SettleEach(batches, ws, success);
    forall i | 0 <= i < |r| ensures WellGrouped(r[i]) && WaitsSoundly(r[i], later) {
      assert WellGrouped(batches[i]) && WaitsSoundly(batches[i], flushing);
    }
  }

  lemma BufferStepKeepsBatches(s: System, step: EB.BufferStep)
    requires Inv(s) && EB.Enabled(s.buffer, step) && !step.Add?
    ensures BatchesInv(BatchesAfter(s, step), EB.Next(s.buffer, step).flushing)
  {
    BufferStepEffect(s.buffer, step);
    var later := EB.Next(s.buffer, step).flushing;
    match step {
      case InsertSucceeds(i) => SettleKeepsBatches(s.batches, s.buffer.flushing, later, s.buffer.suspended[i].workspaceId, true);
      case InsertFails(i, _) => SettleKeepsBatches(s.batches, s.buffer.flushing, later, s.buffer.suspended[i].workspaceId, false);
      case _ =>
    }
  }

  /** Calls that differ only in what they wait for have added the same. */
  ghost predicate SameProgress(a: seq<Batch>, b: seq<Batch>) {
    |a| == |b| && forall i | 0 <= i < |a| :: a[i].queue == b[i].queue && a[i].next == b[i].next
  }

  lemma SameProgressSameOrigins(a: seq<Batch>, b: seq<Batch>, added: seq<TrackingEvent>, origins: seq<Origin>)
    requires SameProgress(a, b) && OriginsInv(a, added, origins) && AddsPrefix(a, added, origins)
    ensures OriginsInv(b, added, origins) && AddsPrefix(b, added, origins)
  {
    forall k | 0 <= k < |added| ensures OriginFits(b, origins[k], added[k]) { assert OriginFits(a, origins[k], added[k]); }
    forall i | 0 <= i < |b| ensures b[i].next <= |b[i].queue| && AddedBy(added, origins, i) == b[i].queue[..b[i].next] {
      assert a[i].queue == b[i].queue;
    }
  }

  lemma BufferStepKeepsInv(s: System, step: EB.BufferStep)
    requires Inv(s) && Enabled(s, BufferStep(step))
    ensures Inv(Next(s, BufferStep(step)))
  {
    EB.StepKeepsInv(s.buffer, step);
    BufferStepEffect(s.buffer, step);
    BufferStepKeepsBatches(s, step);
    SameProgressSameOrigins(s.batches, BatchesAfter(s, step), s.buffer.added, s.origins);
  }

  lemma {:induction false} NothingAddedBy(added: seq<TrackingEvent>, origins: seq<Origin>, b: nat)
    requires |origins| == |added| && forall o | o in origins :: o.batch != b
    ensures AddedBy(added, origins, b) == []
  {
    if added != [] {
      var n := |added| - 1;
      assert origins[n] in origins && forall o | o in origins[..n] :: o in origins;
      NothingAddedBy(added[..n], origins[..n], b);
    }
  }

  lemma StartKeepsOrigins(s: System, batch: Batch)
    requires Inv(s) && batch.next == 0
    ensures OriginsInv(s.batches + [batch], s.buffer.added, s.origins) && AddsPrefix(s.batches + [batch], s.buffer.added, s.origins)
  {
    var batches := s.batches + [batch];
    forall k | 0 <= k < |s.buffer.added| ensures OriginFits(batches, s.origins[k], s.buffer.added[k]) {
      assert OriginFits(s.batches, s.origins[k], s.buffer.added[k]);
    }
    NothingAddedBy(s.buffer.added, s.origins, |s.batches|);
  }

  lemma StartKeepsInv(s: System, events: seq<TrackingEvent>, order: seq<string>)
    requires Inv(s) && Enabled(s, StartBatch(events, order))
    ensures Inv(Next(s, StartBatch(events, order)))
  {
    StartKeepsOrigins(s, NewBatch(events, order));
  }

  lemma AddedByAppend(added: seq<TrackingEvent>, origins: seq<Origin>, e: TrackingEvent, o: Origin, b: nat)
    requires |origins| == |added|
    ensures AddedBy(added + [e], origins + [o], b) == AddedBy(added, origins, b) + if o.batch == b then [e] else []
  {
    assert (added + [e])[..|added|] == added && (origins + [o])[..|origins|] == origins;
  }

  lemma AddNextKeepsOrigins(batches: seq<Batch>, added: seq<TrackingEvent>, origins: seq<Origin>, b: nat, after: Batch)
    requires OriginsInv(batches, added, origins) && b < |batches| && batches[b].next < |batches[b].queue|
    requires after.queue == batches[b].queue && after.next == batches[b].next + 1
    ensures OriginsInv(batches[b := after], added + [batches[b].queue[batches[b].next]], origins + [Origin(b, batches[b].next)])
  {
    var e, o := batches[b].queue[batches[b].next], Origin(b, batches[b].next);
    forall k | 0 <= k < |added| + 1 ensures OriginFits(batches[b := after], (origins + [o])[k], (added + [e])[k]) {
      if k < |added| { assert OriginFits(batches, origins[k], added[k]); }
    }
    forall c, i | 0 <= c < |batches| && 0 <= i < batches[b := after][c].next ensures HasOrigin(origins + [o], c, i) {
      if c != b || i < batches[b].next { assert HasOrigin(origins, c, i); }
    }
    forall k | 0 <= k < |origins| && origins[k].batch == b ensures origins[k].index < o.index {
      assert OriginFits(batches, origins[k], added[k]);
    }
  }

  lemma AddNextKeepsPrefix(batches: seq<Batch>, added: seq<TrackingEvent>, origins: seq<Origin>, b: nat, after: Batch)
    requires AddsPrefix(batches, added, origins) && b < |batches| && batches[b].next < |batches[b].queue|
    requires after.queue == batches[b].queue && after.next == batches[b].next + 1
    ensures AddsPrefix(batches[b := after], added + [batches[b].queue[batches[b].next]], origins + [Origin(b, batches[b].next)])
  {
    var e, o, r := batches[b].queue[batches[b].next], Origin(b, batches[b].next), batches[b := after];
    forall c | 0 <= c < |r| ensures r[c].next <= |r[c].queue| && AddedBy(added + [e], origins + [o], c) == r[c].queue[..r[c].next] {
      AddedByAppend(added, origins, e, o, c);
    }
  }

  /** A call that starts an insert waits for a workspace for which no other call waits. */
  lemma WaitingKeepsBatches(batches: seq<Batch>, flushing: set<string>, later: set<string>, b: nat, after: Batch)
    requires BatchesInv(batches, flushing) && flushing <= later && b < |batches|
    requires WellGrouped(after) && WaitsSoundly(after, later) && (after.waiting.Some? ==> after.waiting.value !in flushing)
    ensures BatchesInv(batches[b := after], later)
  {
    var r := batches[b := after];
    forall i | 0 <= i < |r| ensures WellGrouped(r[i]) && WaitsSoundly(r[i], later) {
      assert WellGrouped(batches[i]) && WaitsSoundly(batches[i], flushing);
    }
    forall i, j | 0 <= i < j < |r| && r[i].waiting.Some? ensures r[i].waiting != r[j].waiting {
      assert WaitsSoundly(batches[i], flushing) && WaitsSoundly(batches[j], flushing);
    }
  }

  lemma AddNextKeepsBatches(s: System, b: nat)
    requires Inv(s) && Enabled(s, AddNext(b))
    ensures BatchesInv(AddNextStep(s, b).batches, AddNextStep(s, b).buffer.flushing)
  {
    AddEffect(s.buffer, s.batches[b].queue[s.batches[b].next]);
    assert WellGrouped(s.batches[b]);
    WaitingKeepsBatches(s.batches, s.buffer.flushing, AddNextStep(s, b).buffer.flushing, b, AddNextStep(s, b).batches[b]);
  }

  lemma AddNextKeepsInv(s: System, b: nat)
    requires Inv(s) && Enabled(s, AddNext(b))
    ensures Inv(Next(s, AddNext(b)))
  {
    var e := s.batches[b].queue[s.batches[b].next];
    EB.StepKeepsInv(s.buffer, EB.Add(e));
    AddEffect(s.buffer, e);
    AddNextKeepsBatches(s, b);
    var after := Next(s, AddNext(b)).batches[b];
    AddNextKeepsOrigins(s.batches, s.buffer.added, s.origins, b, after);
    AddNextKeepsPrefix(s.batches, s.buffer.added, s.origins, b, after);
  }

  lemma StepKeepsInv(s: System, step: Step)
    requires Inv(s) && Enabled(s, step)
    ensures Inv(Next(s, step))
  {
    match step {
      case StartBatch(events, order) => StartKeepsInv(s, events, order);
      case AddNext(b) => AddNextKeepsInv(s, b);
      case BufferStep(buffered) => BufferStepKeepsInv(s, buffered);
    }
  }

  /** In every state of every run of any number of calls and inserts: the buffer keeps its invariant, every added event
      stands at its recorded place of its call's queue, and every place before a call's next was added. */
  lemma {:induction false} RunKeepsInv(states: seq<System>, steps: seq<Step>, n: nat)
    requires IsRun(states, steps) && n < |states|
    ensures Inv(states[n])
  {
    if n == 0 {
      EB.EmptyBufferInv();
    } else {
      RunKeepsInv(states, steps, n - 1);
      StepKeepsInv(states[n - 1], steps[n - 1]);
    }
  }

  // ---------------------------------------------------------------- what a call has added

  /** What a call has added is a prefix of its events, taken workspace by workspace in the order of appearance, whatever
      other calls and inserts did meanwhile. */
  lemma BatchAddsPrefix(states: seq<System>, steps: seq<Step>, n: nat, b: nat)
    requires IsRun(states, steps) && n < |states| && b < |states[n].batches|
    ensures |states[n].origins| == |states[n].buffer.added|
    ensures var s, batch := states[n], states[n].batches[b];
            && batch.next <= |EB.InGroups(batch.order, Grouped(batch.source))|
            && AddedBy(s.buffer.added, s.origins, b) == EB.InGroups(batch.order, Grouped(batch.source))[..batch.next]
  {
    RunKeepsInv(states, steps, n);
    assert WellGrouped(states[n].batches[b]);
  }

  /** A call has settled: it gave up, or has added everything and waits for nothing. */
  ghost predicate HasSettled(b: Batch) {
    b.failed || (b.next == |b.queue| && b.waiting == None)
  }

  /** The step fails the insert that call b awaits. */
  ghost predicate FailsAwaited(s: System, step: Step, b: nat)
    requires Enabled(s, step)
  {
    && b < |s.batches|
    && step.BufferStep? && step.step.InsertFails?
    && s.batches[b].waiting == Settles(s.buffer, step.step)
  }

  ghost predicate AwaitedFailure(states: seq<System>, steps: seq<Step>, j: nat, b: nat)
    requires IsRun(states, steps) && j < |steps|
  {
    FailsAwaited(states[j], steps[j], b)
  }

  /** How a step changes a call. */
  ghost predicate Follows(before: Batch, after: Batch, failsNow: bool) {
    && after.source == before.source && after.order == before.order && after.queue == before.queue
    && (after.failed <==> before.failed || failsNow)
    && (after.failed ==> after.next == before.next)
  }

  lemma BufferStepFollows(s: System, step: EB.BufferStep, b: nat)
    requires Enabled(s, BufferStep(step)) && b < |s.batches| && WaitsSoundly(s.batches[b], s.buffer.flushing)
    ensures Follows(s.batches[b], BatchesAfter(s, step)[b], FailsAwaited(s, BufferStep(step), b))
  {
  }

  lemma AddNextFollows(s: System, c: nat, b: nat)
    requires Enabled(s, AddNext(c)) && b < |s.batches|
    ensures Follows(s.batches[b], AddNextStep(s, c).batches[b], false)
  {
  }

  lemma StepFollows(s: System, step: Step, b: nat)
    requires Enabled(s, step) && b < |s.batches| && WaitsSoundly(s.batches[b], s.buffer.flushing)
    ensures b < |Next(s, step).batches|
    ensures Follows(s.batches[b], Next(s, step).batches[b], FailsAwaited(s, step, b))
  {
    match step {
      case StartBatch(_, _) =>
      case AddNext(c) => AddNextFollows(s, c, b);
      case BufferStep(buffered) => BufferStepFollows(s, buffered, b);
    }
  }

  lemma BatchStep(states: seq<System>, steps: seq<Step>, n: nat, b: nat)
    requires IsRun(states, steps) && n < |steps| && b < |states[n].batches|
    ensures b < |states[n + 1].batches|
    ensures Follows(states[n].batches[b], states[n + 1].batches[b], AwaitedFailure(states, steps, n, b))
  {
    RunKeepsInv(states, steps, n);
    StepFollows(states[n], steps[n], b);
  }

  lemma NewBatchHasNotFailed(states: seq<System>, steps: seq<Step>, n: nat, b: nat)
    requires IsRun(states, steps) && n < |steps| && |states[n].batches| <= b < |states[n + 1].batches|
    ensures !states[n + 1].batches[b].failed
  {
  }

  /** A call that gave up did so because an insert it awaited failed, and adds nothing more. */
  lemma {:induction false} FailedByAwaited(states: seq<System>, steps: seq<Step>, n: nat, b: nat) returns (j: nat)
    requires IsRun(states, steps) && n < |states| && b < |states[n].batches| && states[n].batches[b].failed
    ensures j < n && AwaitedFailure(states, steps, j, b)
    ensures states[j].batches[b].next == states[n].batches[b].next && states[j].batches[b].queue == states[n].batches[b].queue
  {
    if b >= |states[n - 1].batches| {
      NewBatchHasNotFailed(states, steps, n - 1, b);
      assert false;
    } else {
      BatchStep(states, steps, n - 1, b);
      if AwaitedFailure(states, steps, n - 1, b) {
        j := n - 1;
      } else {
        j := FailedByAwaited(states, steps, n - 1, b);
      }
    }
  }

  lemma {:induction false} FailedForGood(states: seq<System>, steps: seq<Step>, j: nat, n: nat, b: nat)
    requires IsRun(states, steps) && j < n < |states| && AwaitedFailure(states, steps, j, b)
    ensures b < |states[n].batches| && states[n].batches[b].failed
    ensures states[n].batches[b].next == states[j].batches[b].next && states[n].batches[b].queue == states[j].batches[b].queue
    decreases n - j
  {
    if n > j + 1 {
      FailedForGood(states, steps, j, n - 1, b);
    }
    BatchStep(states, steps, n - 1, b);
  }

  /** A settled call has added all its events if and only if no insert that it awaited failed before its last add. */
  lemma CompleteIffNoneFailedBefore(states: seq<System>, steps: seq<Step>, n: nat, b: nat)
    requires IsRun(states, steps) && n < |states| && b < |states[n].batches| && HasSettled(states[n].batches[b])
    ensures states[n].batches[b].next == |states[n].batches[b].queue| <==>
            forall j | 0 <= j < n && AwaitedFailure(states, steps, j, b) ::
              states[j].batches[b].next == |states[j].batches[b].queue|
  {
    if states[n].batches[b].next == |states[n].batches[b].queue| {
      forall j | 0 <= j < n && AwaitedFailure(states, steps, j, b)
        ensures states[j].batches[b].next == |states[j].batches[b].queue|
      {
        FailedForGood(states, steps, j, n, b);
      }
    } else {
      var j := FailedByAwaited(states, steps, n, b);
    }
  }

  /** Calls do not hang: one that has not settled can add its next event, or awaits an insert that is under way. */
  lemma BatchesGoOn(states: seq<System>, steps: seq<Step>, n: nat, b: nat)
    requires IsRun(states, steps) && n < |states| && b < |states[n].batches| && !HasSettled(states[n].batches[b])
    ensures || Enabled(states[n], AddNext(b))
            || exists i | 0 <= i < |states[n].buffer.suspended| :: states[n].batches[b].waiting == Some(states[n].buffer.suspended[i].workspaceId)
  {
    RunKeepsInv(states, steps, n);
    var s, batch := states[n], states[n].batches[b];
    assert WellGrouped(batch) && WaitsSoundly(batch, s.buffer.flushing);
    if batch.waiting.Some? {
      assert batch.waiting.value in EB.InsertWorkspaces(s.buffer.suspended);
      var c :| c in s.buffer.suspended && c.workspaceId == batch.waiting.value;
      var i :| 0 <= i < |s.buffer.suspended| && s.buffer.suspended[i] == c;
    }
  }

  lemma {:induction false} AllForWorkspace(events: seq<TrackingEvent>, ws: string)
    requires forall e | e in events :: e.workspaceId == ws
    ensures EB.ForWorkspace(events, ws) == events
  {
    if events != [] {
      var n := |events| - 1;
      assert events[n] in events && forall e | e in events[..n] :: e in events;
      AllForWorkspace(events[..n], ws);
      assert events == events[..n] + [events[n]];
    }
  }

  lemma ListsNone(order: seq<string>, workspaces: set<string>)
    requires EB.ListsOnce(order, workspaces)
    ensures order == [] <==> workspaces == {}
  {
    if order != [] { assert order[0] in order; }
  }

  lemma ListsOnlyOne(order: seq<string>, ws: string)
    requires EB.ListsOnce(order, {ws})
    ensures order == [ws]
  {
    assert ws in order;
    var last := if |order| > 1 then order[1] else ws;
    assert order[0] in order;
    assert last in order;
  }

  /** Events of one workspace, such as those of a payload, are added in the order given. */
  lemma OneGroup(b: Batch, ws: string)
    requires WellGrouped(b) && forall e | e in b.source :: e.workspaceId == ws
    ensures b.queue == b.source
  {
    if b.source == [] {
      ListsNone(b.order, EB.WorkspacesOf(b.source));
    } else {
      assert b.source[0] in b.source;
      assert EB.WorkspacesOf(b.source) == {ws};
      ListsOnlyOne(b.order, ws);
      AllForWorkspace(b.source, ws);
      assert b.order[..0] == [];
      assert EB.InGroups([ws], Grouped(b.source)) == [] + EB.ForWorkspace(b.source, ws);
    }
  }

  // ---------------------------------------------------------------- a call that is cut short

  lemma RunExtends(states: seq<System>, steps: seq<Step>, step: Step)
    requires IsRun(states, steps) && Enabled(states[|steps|], step)
    ensures IsRun(states + [Next(states[|steps|], step)], steps + [step])
  {
    var ss, ts := states + [Next(states[|steps|], step)], steps + [step];
    forall i | 0 <= i < |ts| ensures Enabled(ss[i], ts[i]) && ss[i + 1] == Next(ss[i], ts[i]) {
      if i < |steps| { assert ss[i] == states[i] && ss[i + 1] == states[i + 1] && ts[i] == steps[i]; }
    }
  }

  /** One call alone has added k events, fewer than a full buffer. */
  ghost predicate AloneWith(s: System, events: seq<TrackingEvent>, ws: string, k: nat) {
    && s.batches == [Batch(events, [ws], events, k, None, false)]
    && s.buffer.suspended == [] && s.buffer.flushing == {} && |EB.Rows(s.buffer.buffers, ws)| == k
  }

  lemma AloneStarts(events: seq<TrackingEvent>, ws: string) returns (states: seq<System>, steps: seq<Step>)
    requires events != [] && forall e | e in events :: e.workspaceId == ws
    ensures IsRun(states, steps) && AloneWith(states[|steps|], events, ws, 0)
  {
    assert events[0] in events;
    assert EB.WorkspacesOf(events) == {ws};
    OneGroup(NewBatch(events, [ws]), ws);
    states, steps := [EmptySystem], [];
    RunExtends(states, steps, StartBatch(events, [ws]));
    states, steps := states + [Next(EmptySystem, StartBatch(events, [ws]))], steps + [StartBatch(events, [ws])];
  }

  lemma AloneAdds(s: System, events: seq<TrackingEvent>, ws: string, k: nat)
    requires AloneWith(s, events, ws, k) && k < |events| && events[k].workspaceId == ws
    ensures Enabled(s, AddNext(0))
    ensures k + 1 < EB.MAX_BUFFER_SIZE ==> AloneWith(AddNextStep(s, 0), events, ws, k + 1)
    ensures k + 1 == EB.MAX_BUFFER_SIZE ==>
              var t := AddNextStep(s, 0);
              && t.batches == [Batch(events, [ws], events, k + 1, Some(ws), false)]
              && |t.buffer.suspended| == 1 && t.buffer.suspended[0].workspaceId == ws
  {
  }

  lemma {:induction false} AloneFills(events: seq<TrackingEvent>, ws: string, k: nat) returns (states: seq<System>, steps: seq<Step>)
    requires k < EB.MAX_BUFFER_SIZE && k < |events| && forall e | e in events :: e.workspaceId == ws
    ensures IsRun(states, steps) && AloneWith(states[|steps|], events, ws, k)
  {
    if k == 0 {
      states, steps := AloneStarts(events, ws);
    } else {
      states, steps := AloneFills(events, ws, k - 1);
      AloneAdds(states[|steps|], events, ws, k - 1);
      RunExtends(states, steps, AddNext(0));
      states, steps := states + [Next(states[|steps|], AddNext(0))], steps + [AddNext(0)];
    }
  }

  /** It happens: of a batch larger than the buffer, the events after the five hundredth are dropped when the insert
      that it starts fails. */
  lemma CutShort(events: seq<TrackingEvent>, ws: string) returns (states: seq<System>, steps: seq<Step>)
    requires |events| > EB.MAX_BUFFER_SIZE && forall e | e in events :: e.workspaceId == ws
    ensures IsRun(states, steps) && |states[|steps|].batches| == 1
    ensures var b := states[|steps|].batches[0];
            b.source == events && HasSettled(b) && b.failed && b.next == EB.MAX_BUFFER_SIZE < |b.queue|
  {
    states, steps := AloneFills(events, ws, EB.MAX_BUFFER_SIZE - 1);
    AloneAdds(states[|steps|], events, ws, EB.MAX_BUFFER_SIZE - 1);
    RunExtends(states, steps, AddNext(0));
    states, steps := states + [Next(states[|steps|], AddNext(0))], steps + [AddNext(0)];
    var fails := BufferStep(EB.InsertFails(0, []));
    RunExtends(states, steps, fails);
    states, steps := states + [Next(states[|steps|], fails)], steps + [fails];
  }

  // ---------------------------------------------------------------- the calls

  /** The calls of `addBatch` that are under way, each with its local variables. */
  class AddBatchCalls {
    const service: EB.EventBufferService
    var batches: seq<Batch>
    ghost var origins: seq<Origin>

    ghost function Model(): System
      reads this, service
    {
      System(service.Model(), batches, origins)
    }

    constructor ()
      ensures fresh(service) && Model() == EmptySystem
    {
      service := new EB.EventBufferService();
      batches := [];
      origins := [];
    }

    /** `addBatch` before its loops. */
    method AddBatch(events: seq<TrackingEvent>) returns (ghost order: seq<string>)
      modifies this
      ensures Enabled(old(Model()), StartBatch(events, order)) && Model() == Next(old(Model()), StartBatch(events, order))
    {
      var workspaces, byWorkspace := service.GroupByWorkspace(events);
      order := workspaces;
      assert byWorkspace == Grouped(events);
      batches := batches + [Batch(events, workspaces, EB.InGroups(workspaces, byWorkspace), 0, None, false)];
    }

    /** One turn of its inner loop: the next event is added, and the call awaits the insert that this starts. */
    method AddNextEvent(b: nat)
      requires Enabled(Model(), AddNext(b))
      modifies this, service
      ensures Model() == Next(old(Model()), AddNext(b))
    {
      var event := batches[b].queue[batches[b].next];
      var inserting := service.Add(event);
      origins := origins + [Origin(b, batches[b].next)];
      batches := batches[b := Advanced(batches[b], if inserting then Some(event.workspaceId) else None)];
    }

    /** An insert succeeds: the call that awaits it goes on. */
    method InsertSucceeded(i: nat)
      requires i < |service.suspended|
      modifies this, service
      ensures Model() == Next(old(Model()), BufferStep(EB.InsertSucceeds(i)))
    {
      var ws := service.suspended[i].workspaceId;
      service.InsertSucceeded(i);
      batches := SettleEach(batches, ws, true);
    }

    /** An insert fails: the error ends the call that awaits it. */
    method InsertFailed(i: nat, ghost applied: seq<TrackingEvent>)
      requires i < |service.suspended| && forall e | e in applied :: e in service.suspended[i].events
      modifies this, service
      ensures Model() == Next(old(Model()), BufferStep(EB.InsertFails(i, applied)))
    {
      var ws := service.suspended[i].workspaceId;
      service.InsertFailed(i, applied);
      batches := SettleEach(batches, ws, false);
    }
  }
}
