/** The offline queue of the SDK's transport. A flush suspends at every send, and payloads may be queued
    while it does. */
module Sender {
  import opened EventTable
  import opened SessionPayload

  const MAX_QUEUE_SIZE := 100
  const QUEUE_TTL_MS := 24 * 60 * 60 * 1000

  datatype QueuedPayload = QueuedPayload(payload: Payload, queuedAt: int)

  /** A suspended flush: the item being sent followed by those not yet looked at, the moment the flush
      started, and the items that failed so far. */
  datatype FlushFrame = FlushFrame(rest: seq<QueuedPayload>, startedAt: int, failed: seq<QueuedPayload>)

  /** How an item left the queue during a flush that started at `startedAt`. */
  datatype Outcome = Outcome(item: QueuedPayload, startedAt: int)

  /** `enqueued`, `delivered`, `expired`, `evicted` record the run; `unbounded` is what the queue would hold
      without a size limit. */
  datatype SenderState = SenderState(
    queue: seq<QueuedPayload>,
    flush: Option<FlushFrame>,
    clock: int,
    enqueued: seq<QueuedPayload>,
    delivered: seq<Outcome>,
    expired: seq<Outcome>,
    evicted: seq<QueuedPayload>,
    unbounded: seq<QueuedPayload>)

  datatype SenderStep = Enqueue(payload: Payload) | Online | SendReturns(success: bool)

  /** A page load finds in storage what an earlier one left there. */
  function StartWith(stored: seq<QueuedPayload>, now: int): SenderState {
    SenderState(stored, None, now, stored, [], [], [], stored)
  }

  // ---------------------------------------------------------------- steps

  function Newest(queue: seq<QueuedPayload>): (r: seq<QueuedPayload>)
    ensures |r| <= MAX_QUEUE_SIZE
  {
    if |queue| > MAX_QUEUE_SIZE then queue[|queue| - MAX_QUEUE_SIZE..] else queue
  }

  function Dropped(queue: seq<QueuedPayload>): seq<QueuedPayload> {
    if |queue| > MAX_QUEUE_SIZE then queue[..|queue| - MAX_QUEUE_SIZE] else []
  }

  function Save(s: SenderState, queue: seq<QueuedPayload>): SenderState {
    s.(queue := Newest(queue), evicted := s.evicted + Dropped(queue))
  }

  function EnqueueStep(s: SenderState, payload: Payload, now: int): SenderState {
    var item := QueuedPayload(payload, now);
    Save(s.(clock := now, enqueued := s.enqueued + [item], unbounded := s.unbounded + [item]), s.queue + [item])
  }

  predicate IsExpired(item: QueuedPayload, startedAt: int) {
    startedAt - item.queuedAt > QUEUE_TTL_MS
  }

  /** The first item of the flush has expired and is discarded. */
  function Expire(s: SenderState): SenderState
    requires s.flush.Some? && s.flush.value.rest != []
  {
    var f := s.flush.value;
    s.(flush := Some(f.(rest := f.rest[1..])), expired := s.expired + [Outcome(f.rest[0], f.startedAt)])
  }

  /** Runs a flush up to its next send, or to its end. */
  function Continue(s: SenderState): SenderState
    requires s.flush.Some?
    decreases |s.flush.value.rest|
  {
    var f := s.flush.value;
    if f.rest == [] then
      var done := s.(flush := None, unbounded := f.failed + s.unbounded);
      if f.failed != [] then Save(done, f.failed + s.queue) else done
    else if IsExpired(f.rest[0], f.startedAt) then
      Continue(Expire(s))
    else s
  }

  /** A flush takes the whole queue. */
  function Begin(s: SenderState, now: int): SenderState {
    s.(clock := now, queue := [], unbounded := [], flush := Some(FlushFrame(s.queue, now, [])))
  }

  function OnlineStep(s: SenderState, now: int): SenderState {
    if s.flush.Some? || s.queue == [] then s.(clock := now) else Continue(Begin(s, now))
  }

  /** The result of the send, before the flush goes on. */
  function Returned(s: SenderState, success: bool, now: int): SenderState
    requires s.flush.Some? && s.flush.value.rest != []
  {
    var f := s.flush.value;
    s.(clock := now,
       flush := Some(f.(rest := f.rest[1..], failed := if success then f.failed else f.failed + [f.rest[0]])),
       delivered := if success then s.delivered + [Outcome(f.rest[0], f.startedAt)] else s.delivered)
  }

  function ReturnStep(s: SenderState, success: bool, now: int): SenderState
    requires s.flush.Some? && s.flush.value.rest != []
  {
    Continue(Returned(s, success, now))
  }

  ghost predicate Enabled(s: SenderState, step: SenderStep, now: int) {
    s.clock <= now && (step.SendReturns? ==> s.flush.Some? && s.flush.value.rest != [])
  }

  ghost function Next(s: SenderState, step: SenderStep, now: int): SenderState
    requires Enabled(s, step, now)
  {
    match step
    case Enqueue(payload) => EnqueueStep(s, payload, now)
    case Online => OnlineStep(s, now)
    case SendReturns(success) => ReturnStep(s, success, now)
  }

  datatype Occurrence = Occurrence(step: SenderStep, now: int)

  ghost predicate SortedUpTo(items: seq<QueuedPayload>, now: int) {
    && (forall i, j | 0 <= i < j < |items| :: items[i].queuedAt <= items[j].queuedAt)
    && forall i | 0 <= i < |items| :: items[i].queuedAt <= now
  }

  ghost predicate GoodQueue(items: seq<QueuedPayload>, now: int) {
    |items| <= MAX_QUEUE_SIZE && SortedUpTo(items, now)
  }

  ghost predicate IsStart(s: SenderState) {
    GoodQueue(s.queue, s.clock) && s == StartWith(s.queue, s.clock)
  }

  ghost predicate IsRun(states: seq<SenderState>, steps: seq<Occurrence>) {
    && |states| == |steps| + 1
    && IsStart(states[0])
    && forall i | 0 <= i < |steps| ::
         Enabled(states[i], steps[i].step, steps[i].now)
         && states[i + 1] == Next(states[i], steps[i].step, steps[i].now)
  }

  // ---------------------------------------------------------------- invariant

  function Items(outcomes: seq<Outcome>): (items: seq<QueuedPayload>)
    ensures |items| == |outcomes| && forall i | 0 <= i < |items| :: items[i] == outcomes[i].item
  {
    seq(|outcomes|, i requires 0 <= i < |outcomes| => outcomes[i].item)
  }

  function InFlush(s: SenderState): seq<QueuedPayload> {
    if s.flush.Some? then s.flush.value.failed + s.flush.value.rest else []
  }

  /** Every item is in exactly one place. */
  ghost predicate Accounted(s: SenderState) {
    multiset(s.enqueued) == multiset(Items(s.delivered)) + multiset(Items(s.expired)) + multiset(s.evicted)
                            + multiset(InFlush(s)) + multiset(s.queue)
  }

  /** The queue is the newest part of the unbounded one, which is sorted behind the items in the flush. */
  ghost predicate Bounded(s: SenderState) {
    && s.queue == Newest(s.unbounded)
    && SortedUpTo(InFlush(s) + s.unbounded, s.clock)
    && (s.flush.Some? ==> s.flush.value.startedAt <= s.clock && SortedUpTo(InFlush(s), s.flush.value.startedAt))
  }

  /** Items are sent when they were at most 24 hours old as the flush started, and discarded otherwise. */
  ghost predicate TtlKept(s: SenderState) {
    && (forall o | o in s.delivered :: !IsExpired(o.item, o.startedAt))
    && (forall o | o in s.expired :: IsExpired(o.item, o.startedAt))
    && (s.flush.Some? ==> forall i | 0 <= i < |s.flush.value.failed| :: !IsExpired(s.flush.value.failed[i], s.flush.value.startedAt))
  }

  /** A suspended flush is waiting for the send of an item that has not expired. */
  ghost predicate Waiting(s: SenderState) {
    s.flush.Some? ==> s.flush.value.rest != [] && !IsExpired(s.flush.value.rest[0], s.flush.value.startedAt)
  }

  ghost predicate Inv(s: SenderState) {
    Accounted(s) && Bounded(s) && TtlKept(s) && Waiting(s)
  }

  lemma SaveSplits(queue: seq<QueuedPayload>)
    ensures Dropped(queue) + Newest(queue) == queue
  {
  }

  /** Trimming the tail first does not change which items are the newest. */
  lemma NewestOfNewest(front: seq<QueuedPayload>, back: seq<QueuedPayload>)
    ensures Newest(front + Newest(back)) == Newest(front + back)
  {
    if |back| > MAX_QUEUE_SIZE {
      var d := |back| - MAX_QUEUE_SIZE;
      assert front + back == (front + back[..d]) + back[d..];
      assert Newest(front + Newest(back)) == back[d..];
    }
  }

  lemma SaveKeepsAccount(s: SenderState, queue: seq<QueuedPayload>)
    requires multiset(s.enqueued) == multiset(Items(s.delivered)) + multiset(Items(s.expired)) + multiset(s.evicted)
                                     + multiset(InFlush(s)) + multiset(queue)
    ensures Accounted(Save(s, queue))
  {
    SaveSplits(queue);
    assert multiset(Dropped(queue) + Newest(queue)) == multiset(queue);
    assert multiset(s.evicted + Dropped(queue)) == multiset(s.evicted) + multiset(Dropped(queue));
  }

  lemma EnqueueKeepsAccount(s: SenderState, payload: Payload, now: int)
    requires Accounted(s)
    ensures Accounted(EnqueueStep(s, payload, now))
  {
    var item := QueuedPayload(payload, now);
    var noted := s.(clock := now, enqueued := s.enqueued + [item], unbounded := s.unbounded + [item]);
    assert multiset(noted.enqueued) == multiset(s.enqueued) + multiset{item};
    assert multiset(s.queue + [item]) == multiset(s.queue) + multiset{item};
    SaveKeepsAccount(noted, s.queue + [item]);
  }

  lemma NewestWithOneMore(queue: seq<QueuedPayload>, item: QueuedPayload)
    ensures Newest(Newest(queue) + [item]) == Newest(queue + [item])
  {
    if |queue| > MAX_QUEUE_SIZE {
      var d := |queue| - MAX_QUEUE_SIZE;
      assert queue[d..] + [item] == (queue + [item])[d..];
      assert (queue + [item])[d..][1..] == (queue + [item])[d + 1..];
    }
  }

  lemma EnqueueKeepsBounds(s: SenderState, payload: Payload, now: int)
    requires Bounded(s) && s.clock <= now
    ensures Bounded(EnqueueStep(s, payload, now))
  {
    var item := QueuedPayload(payload, now);
    NewestWithOneMore(s.unbounded, item);
    assert InFlush(s) + (s.unbounded + [item]) == (InFlush(s) + s.unbounded) + [item];
  }

  lemma EnqueueKeepsInv(s: SenderState, payload: Payload, now: int)
    requires Inv(s) && s.clock <= now
    ensures Inv(EnqueueStep(s, payload, now))
  {
    EnqueueKeepsAccount(s, payload, now);
    EnqueueKeepsBounds(s, payload, now);
  }

  lemma ExpireKeepsAccount(s: SenderState)
    requires Accounted(s) && s.flush.Some? && s.flush.value.rest != []
    ensures Accounted(Expire(s))
  {
    var f, t := s.flush.value, Expire(s);
    assert Items(t.expired) == Items(s.expired) + [f.rest[0]];
    assert InFlush(s) == f.failed + ([f.rest[0]] + f.rest[1..]);
    assert multiset(InFlush(s)) == multiset(InFlush(t)) + multiset{f.rest[0]};
  }

  lemma ExpireKeepsBounds(s: SenderState)
    requires Bounded(s) && s.flush.Some? && s.flush.value.rest != []
    ensures Bounded(Expire(s))
  {
    RemoveKeepsSorted(s, Expire(s), |s.flush.value.failed|);
  }

  lemma ExpireKeepsTtl(s: SenderState)
    requires TtlKept(s) && s.flush.Some? && s.flush.value.rest != [] && IsExpired(s.flush.value.rest[0], s.flush.value.startedAt)
    ensures TtlKept(Expire(s))
  {
  }

  lemma RemoveKeepsSorted(s: SenderState, t: SenderState, i: nat)
    requires Bounded(s) && s.flush.Some? && t.flush.Some? && i < |InFlush(s)|
    requires InFlush(t) == InFlush(s)[..i] + InFlush(s)[i + 1..]
    requires t.queue == s.queue && t.unbounded == s.unbounded && s.clock <= t.clock
    requires t.flush.value.startedAt == s.flush.value.startedAt
    ensures Bounded(t)
  {
    var a, b := InFlush(s) + s.unbounded, InFlush(t) + t.unbounded;
    forall j | 0 <= j < |b| ensures b[j] == a[if j < i then j else j + 1] {}
    forall j | 0 <= j < |InFlush(t)| ensures InFlush(t)[j] == InFlush(s)[if j < i then j else j + 1] {}
  }

  lemma FinishKeepsInv(s: SenderState)
    requires Accounted(s) && Bounded(s) && TtlKept(s)
    requires s.flush.Some? && s.flush.value.rest == []
    ensures Inv(Continue(s))
  {
    var f := s.flush.value;
    var done := s.(flush := None, unbounded := f.failed + s.unbounded);
    assert InFlush(s) == f.failed;
    assert InFlush(done) + done.unbounded == InFlush(s) + s.unbounded;
    if f.failed != [] {
      assert multiset(f.failed + s.queue) == multiset(f.failed) + multiset(s.queue);
      SaveKeepsAccount(done, f.failed + s.queue);
      NewestOfNewest(f.failed, s.unbounded);
    } else {
      assert f.failed + s.unbounded == s.unbounded;
    }
  }

  lemma {:induction false} ContinueKeepsInv(s: SenderState)
    requires Accounted(s) && Bounded(s) && TtlKept(s) && s.flush.Some?
    ensures Inv(Continue(s))
    decreases |s.flush.value.rest|
  {
    var f := s.flush.value;
    if f.rest == [] {
      FinishKeepsInv(s);
    } else if IsExpired(f.rest[0], f.startedAt) {
      ExpireKeepsAccount(s);
      ExpireKeepsBounds(s);
      ExpireKeepsTtl(s);
      ContinueKeepsInv(Expire(s));
    }
  }

  lemma QueueIsSorted(s: SenderState)
    requires Bounded(s)
    ensures SortedUpTo(s.queue, s.clock)
  {
    var d, all := |s.unbounded| - |s.queue|, InFlush(s) + s.unbounded;
    assert s.queue == s.unbounded[d..];
    forall i | 0 <= i < |s.queue| ensures s.queue[i] == all[|InFlush(s)| + d + i] {}
  }

  lemma BeginKeepsAccount(s: SenderState, now: int)
    requires Accounted(s) && s.flush.None?
    ensures Accounted(Begin(s, now))
  {
    assert InFlush(s) == [];
    assert InFlush(Begin(s, now)) == s.queue;
  }

  lemma BeginKeepsBounds(s: SenderState, now: int)
    requires Bounded(s) && s.clock <= now && s.flush.None?
    ensures Bounded(Begin(s, now))
  {
    QueueIsSorted(s);
    var t := Begin(s, now);
    assert InFlush(t) == s.queue && InFlush(t) + t.unbounded == s.queue;
    assert SortedUpTo(s.queue, now);
  }

  lemma OnlineKeepsInv(s: SenderState, now: int)
    requires Inv(s) && s.clock <= now
    ensures Inv(OnlineStep(s, now))
  {
    if s.flush.None? && s.queue != [] {
      BeginKeepsAccount(s, now);
      BeginKeepsBounds(s, now);
      ContinueKeepsInv(Begin(s, now));
    }
  }

  lemma ReturnedKeepsAccount(s: SenderState, success: bool, now: int)
    requires Accounted(s) && s.flush.Some? && s.flush.value.rest != []
    ensures Accounted(Returned(s, success, now))
  {
    var f, t := s.flush.value, Returned(s, success, now);
    if success {
      assert Items(t.delivered) == Items(s.delivered) + [f.rest[0]];
      assert InFlush(s) == f.failed + ([f.rest[0]] + f.rest[1..]);
    } else {
      assert InFlush(t) == InFlush(s);
    }
  }

  lemma ReturnedKeepsBounds(s: SenderState, success: bool, now: int)
    requires Bounded(s) && s.clock <= now && s.flush.Some? && s.flush.value.rest != []
    ensures Bounded(Returned(s, success, now))
  {
    var t := Returned(s, success, now);
    if success {
      RemoveKeepsSorted(s, t, |s.flush.value.failed|);
    } else {
      assert InFlush(t) == InFlush(s);
    }
  }

  lemma ReturnedKeepsTtl(s: SenderState, success: bool, now: int)
    requires TtlKept(s) && s.flush.Some? && s.flush.value.rest != [] && !IsExpired(s.flush.value.rest[0], s.flush.value.startedAt)
    ensures TtlKept(Returned(s, success, now))
  {
  }

  lemma ReturnKeepsInv(s: SenderState, success: bool, now: int)
    requires Inv(s) && Enabled(s, SendReturns(success), now)
    ensures Inv(ReturnStep(s, success, now))
  {
    ReturnedKeepsAccount(s, success, now);
    ReturnedKeepsBounds(s, success, now);
    ReturnedKeepsTtl(s, success, now);
    ContinueKeepsInv(Returned(s, success, now));
  }

  lemma StartHasInv(s: SenderState)
    requires IsStart(s)
    ensures Inv(s)
  {
    assert InFlush(s) + s.unbounded == s.queue;
    assert multiset(InFlush(s)) == multiset{};
  }

  /** Over whole runs, with payloads queued at any moment of a flush: every queued item is in exactly one of
      delivered, expired, evicted, in the flush, queued; the queue is sorted and is the newest 100 items of
      the unbounded queue; and the 24 hour limit is kept. */
  lemma {:induction false} RunKeepsInv(states: seq<SenderState>, steps: seq<Occurrence>, n: nat)
    requires IsRun(states, steps) && n < |states|
    ensures Inv(states[n])
  {
    if n == 0 {
      StartHasInv(states[0]);
    } else {
      RunKeepsInv(states, steps, n - 1);
      match steps[n - 1].step {
        case Enqueue(payload) => EnqueueKeepsInv(states[n - 1], payload, steps[n - 1].now);
        case Online => OnlineKeepsInv(states[n - 1], steps[n - 1].now);
        case SendReturns(success) => ReturnKeepsInv(states[n - 1], success, steps[n - 1].now);
      }
    }
  }

  /** No item is delivered from the queue more often than it was queued, nor delivered and still queued. What is in
      storage is a good queue for the next page load to start with. */
  lemma DeliveredOnce(states: seq<SenderState>, steps: seq<Occurrence>, n: nat, item: QueuedPayload)
    requires IsRun(states, steps) && n < |states|
    ensures multiset(Items(states[n].delivered))[item] + multiset(states[n].queue)[item] + multiset(InFlush(states[n]))[item]
            <= multiset(states[n].enqueued)[item]
    ensures GoodQueue(states[n].queue, states[n].clock)
  {
    RunKeepsInv(states, steps, n);
    QueueIsSorted(states[n]);
  }

  // ---------------------------------------------------------------- what is queued and what is sent

  /** The payloads that were queued, each with the time of its queueing. */
  function QueuedBy(steps: seq<Occurrence>): seq<QueuedPayload> {
    if steps == [] then []
    else
      var n := |steps| - 1;
      QueuedBy(steps[..n]) + if steps[n].step.Enqueue? then [QueuedPayload(steps[n].step.payload, steps[n].now)] else []
  }

  /** The items whose sends succeeded. */
  ghost function SentBy(states: seq<SenderState>, steps: seq<Occurrence>, n: nat): seq<QueuedPayload>
    requires IsRun(states, steps) && n < |states|
    decreases n
  {
    if n == 0 then []
    else
      var before, step := states[n - 1], steps[n - 1].step;
      SentBy(states, steps, n - 1) + if step.SendReturns? && step.success then [before.flush.value.rest[0]] else []
  }

  lemma {:induction false} ContinueKeepsRecords(s: SenderState)
    requires s.flush.Some?
    ensures Continue(s).enqueued == s.enqueued && Continue(s).delivered == s.delivered
    decreases |s.flush.value.rest|
  {
    if s.flush.value.rest != [] && IsExpired(s.flush.value.rest[0], s.flush.value.startedAt) {
      ContinueKeepsRecords(Expire(s));
    }
  }

  lemma StepRecords(s: SenderState, e: Occurrence)
    requires Enabled(s, e.step, e.now)
    ensures Next(s, e.step, e.now).enqueued == s.enqueued + QueuedBy([e])
    ensures Items(Next(s, e.step, e.now).delivered)
            == Items(s.delivered) + if e.step.SendReturns? && e.step.success then [s.flush.value.rest[0]] else []
  {
    assert [e][..0] == [];
    assert QueuedBy([e]) == if e.step.Enqueue? then [QueuedPayload(e.step.payload, e.now)] else [];
    if e.step.SendReturns? {
      ContinueKeepsRecords(Returned(s, e.step.success, e.now));
    } else if e.step.Online? && s.flush.None? {
      ContinueKeepsRecords(Begin(s, e.now));
    }
  }

  /** The queue's history is what was in storage and then every payload with the moment it was queued, in order; and what
      counts as delivered are the items whose sends succeeded, in order. */
  lemma {:induction false} RecordsAreTrue(states: seq<SenderState>, steps: seq<Occurrence>, n: nat)
    requires IsRun(states, steps) && n < |states|
    ensures states[n].enqueued == states[0].queue + QueuedBy(steps[..n])
    ensures Items(states[n].delivered) == SentBy(states, steps, n)
  {
    if n > 0 {
      RecordsAreTrue(states, steps, n - 1);
      StepRecords(states[n - 1], steps[n - 1]);
      assert steps[..n][..n - 1] == steps[..n - 1];
      assert [steps[n - 1]][..0] == [];
    }
  }

  ghost predicate IsSuffix(rest: seq<QueuedPayload>, queue: seq<QueuedPayload>) {
    |rest| <= |queue| && queue[|queue| - |rest|..] == rest
  }

  lemma {:induction false} ContinueKeepsFrame(s: SenderState)
    requires s.flush.Some?
    ensures Continue(s).flush.Some? ==>
              && IsSuffix(Continue(s).flush.value.rest, s.flush.value.rest)
              && Continue(s).flush.value.startedAt == s.flush.value.startedAt
    decreases |s.flush.value.rest|
  {
    if s.flush.value.rest != [] && IsExpired(s.flush.value.rest[0], s.flush.value.startedAt) {
      ContinueKeepsFrame(Expire(s));
    }
  }

  /** A step either leaves a flush as it is, or goes on with it, or begins one. */
  lemma FlushStep(s: SenderState, e: Occurrence)
    requires Enabled(s, e.step, e.now) && Next(s, e.step, e.now).flush.Some?
    ensures var f := Next(s, e.step, e.now).flush.value;
            if s.flush.None? then e.step.Online? && s.queue != [] && f.startedAt == e.now && IsSuffix(f.rest, s.queue)
            else f.startedAt == s.flush.value.startedAt && IsSuffix(f.rest, s.flush.value.rest)
  {
    if e.step.SendReturns? {
      ContinueKeepsFrame(Returned(s, e.step.success, e.now));
    } else if e.step.Online? && s.flush.None? {
      ContinueKeepsFrame(Begin(s, e.now));
    }
  }

  /** A flush that is under way was begun by going online with a non-empty queue while no other flush was; it measures
      ages by that moment, and what it has not yet looked at is the end of the queue it took. */
  lemma {:induction false} FlushBegan(states: seq<SenderState>, steps: seq<Occurrence>, n: nat) returns (m: nat)
    requires IsRun(states, steps) && n < |states| && states[n].flush.Some?
    ensures m < n && steps[m].step.Online? && states[m].flush.None? && states[m].queue != []
    ensures forall k | m < k <= n :: states[k].flush.Some?
    ensures states[n].flush.value.startedAt == steps[m].now
    ensures IsSuffix(states[n].flush.value.rest, states[m].queue)
  {
    FlushStep(states[n - 1], steps[n - 1]);
    if states[n - 1].flush.None? {
      m := n - 1;
    } else {
      m := FlushBegan(states, steps, n - 1);
    }
  }

  // ---------------------------------------------------------------- the end of a flush

  /** Step n ends a flush: its last send returns, or it starts one and everything in the queue has expired. */
  ghost predicate EndsFlush(states: seq<SenderState>, steps: seq<Occurrence>, n: nat)
    requires IsRun(states, steps) && n < |steps|
  {
    && states[n + 1].flush.None?
    && (steps[n].step.SendReturns? || (steps[n].step.Online? && states[n].flush.None? && states[n].queue != []))
  }

  /** The items that failed in a flush that step n ends. */
  ghost function Failures(states: seq<SenderState>, steps: seq<Occurrence>, n: nat): seq<QueuedPayload>
    requires IsRun(states, steps) && n < |steps| && EndsFlush(states, steps, n)
  {
    if steps[n].step.Online? then []
    else
      var f := states[n].flush.value;
      if steps[n].step.success then f.failed else f.failed + [f.rest[0]]
  }

  /** The items queued since the flush that step n ends began. */
  ghost function QueuedMeanwhile(states: seq<SenderState>, steps: seq<Occurrence>, n: nat): seq<QueuedPayload>
    requires IsRun(states, steps) && n < |steps| && EndsFlush(states, steps, n)
  {
    if steps[n].step.Online? then [] else states[n].unbounded
  }

  /** When a flush ends, the queue is the newest 100 of the items that failed, in order, followed by the items queued
      meanwhile. A flush that ends as it starts leaves nothing and had only expired items. */
  lemma FlushEnds(states: seq<SenderState>, steps: seq<Occurrence>, n: nat)
    requires IsRun(states, steps) && n < |steps| && EndsFlush(states, steps, n)
    ensures states[n + 1].queue == Newest(Failures(states, steps, n) + QueuedMeanwhile(states, steps, n))
    ensures steps[n].step.Online? ==> forall item | item in states[n].queue :: IsExpired(item, steps[n].now)
  {
    RunKeepsInv(states, steps, n);
    RunKeepsInv(states, steps, n + 1);
    if steps[n].step.Online? {
      ContinueEnds(Begin(states[n], steps[n].now));
    } else {
      ContinueEnds(Returned(states[n], steps[n].step.success, steps[n].now));
    }
  }

  lemma {:induction false} ContinueEnds(s: SenderState)
    requires s.flush.Some?
    ensures Continue(s).flush.None? ==> Continue(s).unbounded == s.flush.value.failed + s.unbounded
    ensures Continue(s).flush.None? ==> forall item | item in s.flush.value.rest :: IsExpired(item, s.flush.value.startedAt)
    decreases |s.flush.value.rest|
  {
    var f := s.flush.value;
    if f.rest != [] && IsExpired(f.rest[0], f.startedAt) {
      ContinueEnds(Expire(s));
      assert f.rest == [f.rest[0]] + f.rest[1..];
    }
  }

  /** The body of a request: the payload with a send time added. */
  datatype Request = Request(payload: Payload, sentAt: int)

  /** The request that a step of the flush ends with. */
  function RequestOf(s: SenderState): Request
    requires s.flush.Some? && s.flush.value.rest != []
  {
    Request(s.flush.value.rest[0].payload, s.clock)
  }

  /** Step n sends an item of the queue. */
  ghost predicate SendsFromQueue(states: seq<SenderState>, steps: seq<Occurrence>, n: nat)
    requires IsRun(states, steps) && n < |steps|
  {
    states[n + 1].flush.Some? && (steps[n].step.SendReturns? || (steps[n].step.Online? && states[n].flush.None?))
  }

  lemma {:induction false} ContinueKeepsClock(s: SenderState)
    requires s.flush.Some?
    ensures Continue(s).clock == s.clock
    ensures Continue(s).flush.Some? ==> Continue(s).flush.value.startedAt == s.flush.value.startedAt
    decreases |s.flush.value.rest|
  {
    if s.flush.value.rest != [] && IsExpired(s.flush.value.rest[0], s.flush.value.startedAt) {
      ContinueKeepsClock(Expire(s));
    }
  }

  /** Every request from the queue carries an item that was queued, no longer than 24 hours before the flush began, and
      is stamped with the time of sending, not of queueing. */
  lemma StampedWhenSent(states: seq<SenderState>, steps: seq<Occurrence>, n: nat)
    requires IsRun(states, steps) && n < |steps| && SendsFromQueue(states, steps, n)
    ensures states[n + 1].flush.value.rest != []
    ensures var f, request := states[n + 1].flush.value, RequestOf(states[n + 1]);
            && request == Request(f.rest[0].payload, steps[n].now)
            && f.rest[0] in states[n + 1].enqueued
            && f.rest[0].queuedAt <= f.startedAt <= request.sentAt
            && f.startedAt - f.rest[0].queuedAt <= QUEUE_TTL_MS
  {
    RunKeepsInv(states, steps, n + 1);
    var s := states[n + 1];
    if steps[n].step.Online? {
      ContinueKeepsClock(Begin(states[n], steps[n].now));
    } else {
      ContinueKeepsClock(Returned(states[n], steps[n].step.success, steps[n].now));
    }
    var k := |s.flush.value.failed|;
    assert InFlush(s)[k] == s.flush.value.rest[0];
    assert InFlush(s)[k] in multiset(InFlush(s));
    assert InFlush(s)[k] in multiset(s.enqueued);
  }

  // ---------------------------------------------------------------- the class

  /** What a fetch settles to, as far as the sender tells outcomes apart. */
  datatype FetchOutcome = Accepted | HttpError | TimedOut | NetworkError

  class OfflineSender {
    /** The pending queue in local storage. */
    var queue: seq<QueuedPayload>
    var isFlushing: bool
    /** The local variables of the suspended flush. */
    var rest: seq<QueuedPayload>
    var startedAt: int
    var failedItems: seq<QueuedPayload>
    ghost var log: SenderState

    ghost predicate Valid()
      reads this
    {
      log.queue == queue && log.flush == if isFlushing then Some(FlushFrame(rest, startedAt, failedItems)) else None
    }

    /** `stored` is the queue that an earlier page load left in local storage. */
    constructor (stored: seq<QueuedPayload>, ghost now: int)
      ensures Valid() && log == StartWith(stored, now)
    {
      queue, isFlushing, rest, startedAt, failedItems := stored, false, [], 0, [];
      log := StartWith(stored, now);
    }

    /** A request is stamped when it is sent, not when its payload was built or queued. */
    method StringifyWithSentAt(payload: Payload, now: int) returns (body: Request)
      ensures body == Request(payload, now)
    {
      return Request(payload, now);
    }

    method SaveQueue(items: seq<QueuedPayload>)
      modifies this`queue
      ensures queue == Newest(items)
    {
      queue := if |items| > MAX_QUEUE_SIZE then items[|items| - MAX_QUEUE_SIZE..] else items;
    }

    method EnqueuePayload(payload: Payload, now: int)
      requires Valid()
      modifies this
      ensures Valid() && log == EnqueueStep(old(log), payload, now)
    {
      var pending := queue;
      pending := pending + [QueuedPayload(payload, now)];
      SaveQueue(pending);
      log := EnqueueStep(log, payload, now);
    }

    /** `sendSession` before its fetch: an offline browser queues the payload at once. */
    method SendSession(payload: Payload, offline: bool, now: int) returns (request: Option<Request>)
      requires Valid()
      modifies this
      ensures Valid()
      ensures offline ==> request == None && log == EnqueueStep(old(log), payload, now)
      ensures !offline ==> request == Some(Request(payload, now)) && log == old(log)
    {
      if offline {
        EnqueuePayload(payload, now);
        return None;
      }
      var body := StringifyWithSentAt(payload, now);
      return Some(body);
    }

    /** `sendSession` after its fetch: of the failures only a timeout queues the payload. */
    method FetchSettled(payload: Payload, outcome: FetchOutcome, now: int) returns (success: bool, queued: bool)
      requires Valid()
      modifies this
      ensures Valid()
      ensures success <==> outcome == Accepted
      ensures queued <==> outcome == TimedOut
      ensures log == if queued then EnqueueStep(old(log), payload, now) else old(log)
    {
      success, queued := outcome == Accepted, false;
      if outcome == TimedOut {
        EnqueuePayload(payload, now);
        queued := true;
      }
    }

    /** The flush loop from here to its next send, which it returns, or to its end. */
    method RunToNextSend(now: int) returns (request: Option<Request>)
      requires Valid() && isFlushing && log.clock == now
      modifies this
      ensures Valid() && log == Continue(old(log))
      ensures if isFlushing then rest != [] && request == Some(RequestOf(log)) else request == None
    {
      while rest != [] && IsExpired(rest[0], startedAt)
        invariant Valid() && isFlushing && log.clock == now
        invariant Continue(log) == Continue(old(log))
        decreases |rest|
      {
        log := log.(flush := Some(FlushFrame(rest[1..], startedAt, failedItems)),
                    expired := log.expired + [Outcome(rest[0], startedAt)]);
        rest := rest[1..];
      }
      if rest != [] {
        var body := StringifyWithSentAt(rest[0].payload, now);
        return Some(body);
      }
      log := Continue(log);
      if |failedItems| > 0 {
        SaveQueue(failedItems + queue);
      }
      isFlushing := false;
      return None;
    }

    method HandleOnline(now: int) returns (request: Option<Request>)
      requires Valid()
      modifies this
      ensures Valid() && log == OnlineStep(old(log), now)
      ensures request.Some? ==> isFlushing && rest != [] && request == Some(RequestOf(log))
    {
      if isFlushing || |queue| == 0 {
        log := log.(clock := now);
        return None;
      }
      isFlushing := true;
      rest, startedAt, failedItems := queue, now, [];
      queue := [];
      log := log.(clock := now, queue := [], unbounded := [], flush := Some(FlushFrame(rest, now, [])));
      request := RunToNextSend(now);
    }

    method SendReturned(success: bool, now: int) returns (request: Option<Request>)
      requires Valid() && isFlushing && rest != []
      modifies this
      ensures Valid() && log == ReturnStep(old(log), success, now)
      ensures if isFlushing then rest != [] && request == Some(RequestOf(log)) else request == None
    {
      ghost var f := log.flush.value;
      var item := rest[0];
      if !success {
        failedItems := failedItems + [item];
      }
      rest := rest[1..];
      log := log.(clock := now, flush := Some(FlushFrame(rest, startedAt, failedItems)),
                  delivered := if success then log.delivered + [Outcome(item, startedAt)] else log.delivered);
      request := RunToNextSend(now);
    }
  }
}
