/** Report subscriptions: when the next report is due, and the life of a subscription. */
module Subscriptions {
  import opened EventTable
  import opened Calendar

  datatype Frequency = Daily | Weekly | Monthly

  /** Days of the week run from 1 (Monday) to 7 (Sunday). `None` is a null in the database: a create request for a
      weekly or monthly report must give its day, but a daily report may be changed to another frequency without. */
  datatype Schedule = Schedule(frequency: Frequency, hour: int, dayOfWeek: Option<int>, dayOfMonth: Option<int>)

  /** The ranges of the fields. */
  ghost predicate Sensible(s: Schedule) {
    && 0 <= s.hour <= 23
    && (s.dayOfWeek.Some? ==> 1 <= s.dayOfWeek.value <= 7)
    && (s.dayOfMonth.Some? ==> 1 <= s.dayOfMonth.value <= 28)
  }

  /** A weekly or monthly schedule says which day, as a create request must. */
  predicate HasDay(s: Schedule) {
    match s.frequency
    case Daily => true
    case Weekly => s.dayOfWeek.Some?
    case Monthly => s.dayOfMonth.Some?
  }

  /** A monthly schedule whose day is null. */
  predicate LacksDayOfMonth(s: Schedule) {
    s.frequency == Monthly && s.dayOfMonth.None?
  }

  // ---------------------------------------------------------------- next send

  function HourOf(m: Moment): int {
    m.ms / HOUR_MS
  }

  function AtHour(m: Moment, hour: int): Moment {
    m.(ms := hour * HOUR_MS)
  }

  /** dayjs counts Sunday as 0, and reads null as 0. */
  function TargetWeekday(dayOfWeek: Option<int>): int {
    if dayOfWeek.None? || dayOfWeek.value == 7 then 0 else dayOfWeek.value
  }

  /** `date(dayOfMonth)`. Null is read as 0, and day 0 of a month is the last day of the month before. */
  function OnDayOfMonth(m: Moment, dayOfMonth: Option<int>): Moment {
    if dayOfMonth.Some? then m.(day := dayOfMonth.value)
    else if m.month > 1 then m.(month := m.month - 1, day := DaysInMonth(m.year, m.month - 1))
    else m.(year := m.year - 1, month := 12, day := 31)
  }

  /** The given weekday of the same week, Sunday to Saturday. */
  function OnWeekday(m: Moment, target: int): Moment
    requires 0 <= target <= 6
  {
    if target >= Weekday(m) then AddDays(m, target - Weekday(m)) else GoBack(m, Weekday(m) - target)
  }

  /** The slot of this period has passed: it is before now, or today at an hour that has begun. */
  predicate Passed(next: Moment, now: Moment, hour: int) {
    Epoch(next) < Epoch(now) || (BucketStart(next, Day) == BucketStart(now, Day) && HourOf(now) >= hour)
  }

  function NextSend(s: Schedule, now: Moment): Moment
    requires Sensible(s)
  {
    var today := AtHour(now, s.hour);
    match s.frequency
    case Daily => if HourOf(now) >= s.hour then NextDay(today) else today
    case Weekly =>
      var next := OnWeekday(today, TargetWeekday(s.dayOfWeek));
      if Passed(next, now, s.hour) then AddDays(next, 7) else next
    case Monthly =>
      var next := OnDayOfMonth(today, s.dayOfMonth);
      if Passed(next, now, s.hour) then AddMonth(next) else next
  }

  /** A moment at which the schedule wants a report; a weekly one without a day is for Sundays. */
  ghost predicate IsSlot(s: Schedule, m: Moment) {
    && Valid(m) && m.ms == s.hour * HOUR_MS
    && match s.frequency
       case Daily => true
       case Weekly => Weekday(m) == TargetWeekday(s.dayOfWeek)
       case Monthly => s.dayOfMonth.Some? && m.day == s.dayOfMonth.value
  }

  /** The earliest slot strictly after now. */
  ghost predicate IsNextSlot(s: Schedule, now: Moment, next: Moment) {
    && IsSlot(s, next)
    && Epoch(now) < Epoch(next)
    && forall m | IsSlot(s, m) && Epoch(now) < Epoch(m) :: Epoch(next) <= Epoch(m)
  }

  lemma HourReached(m: Moment, hour: int)
    requires Valid(m) && 0 <= hour <= 23
    ensures HourOf(m) >= hour <==> m.ms >= hour * HOUR_MS
    ensures 0 <= hour * HOUR_MS < DAY_MS
  {
  }

  lemma AtHourIsValid(m: Moment, hour: int)
    requires Valid(m) && 0 <= hour <= 23
    ensures Valid(AtHour(m, hour)) && DayNumber(AtHour(m, hour)) == DayNumber(m)
  {
    HourReached(m, hour);
  }

  /** Slots at the same hour compare by day; a slot is after now if its day is, or it is today and its hour has
      not begun. */
  lemma SlotAfter(now: Moment, m: Moment, hour: int)
    requires Valid(now) && Valid(m) && 0 <= hour <= 23 && m.ms == hour * HOUR_MS
    ensures Epoch(now) < Epoch(m) <==> DayNumber(now) < DayNumber(m) || (DayNumber(now) == DayNumber(m) && HourOf(now) < hour)
  {
    EpochOrder(now, m);
    HourReached(now, hour);
  }

  lemma PassedMeans(next: Moment, now: Moment, hour: int)
    requires Valid(now) && Valid(next) && 0 <= hour <= 23 && next.ms == hour * HOUR_MS
    ensures Passed(next, now, hour) <==> Epoch(next) <= Epoch(now)
  {
    SlotAfter(now, next, hour);
    EpochOrder(next, now);
    SameIndexSameBucket(next, now, Day);
  }

  lemma DailyIsNext(s: Schedule, now: Moment)
    requires Sensible(s) && s.frequency == Daily && Valid(now)
    ensures IsNextSlot(s, now, NextSend(s, now))
  {
    var next := NextSend(s, now);
    AtHourIsValid(now, s.hour);
    NextDayCounts(AtHour(now, s.hour));
    SlotAfter(now, next, s.hour);
    forall m | IsSlot(s, m) && Epoch(now) < Epoch(m) ensures Epoch(next) <= Epoch(m) {
      SlotAfter(now, m, s.hour);
      EpochOrder(m, next);
    }
  }

  lemma OnWeekdayIs(m: Moment, target: int)
    requires Valid(m) && 0 <= target <= 6
    ensures var r := OnWeekday(m, target);
            Valid(r) && r.ms == m.ms && DayNumber(r) == DayNumber(m) - Weekday(m) + target && Weekday(r) == target
  {
    if target >= Weekday(m) {
      AddDaysCounts(m, target - Weekday(m));
    } else {
      GoBackCounts(m, Weekday(m) - target);
    }
    ShiftedWeekday(DayNumber(m), target);
  }

  lemma ShiftedWeekday(n: int, target: int)
    requires 0 <= target <= 6
    ensures WeekdayOf(n - WeekdayOf(n) + target) == target
  {
  }

  /** Two days on the same weekday are the same day or at least a week apart. */
  lemma SameWeekdayApart(a: int, b: int)
    requires WeekdayOf(a) == WeekdayOf(b) && a < b
    ensures a + 7 <= b
  {
  }

  lemma WeeklyIsNext(s: Schedule, now: Moment)
    requires Sensible(s) && s.frequency == Weekly && Valid(now)
    ensures IsNextSlot(s, now, NextSend(s, now))
  {
    var target := TargetWeekday(s.dayOfWeek);
    AtHourIsValid(now, s.hour);
    OnWeekdayIs(AtHour(now, s.hour), target);
    var here := OnWeekday(AtHour(now, s.hour), target);
    var next := NextSend(s, now);
    PassedMeans(here, now, s.hour);
    AddDaysCounts(here, 7);
    WeeksOf(DayNumber(here));
    SlotAfter(now, here, s.hour);
    SlotAfter(now, next, s.hour);
    forall m | IsSlot(s, m) && Epoch(now) < Epoch(m) ensures Epoch(next) <= Epoch(m) {
      SlotAfter(now, m, s.hour);
      if DayNumber(m) < DayNumber(next) {
        SameWeekdayApart(DayNumber(m), DayNumber(next));
      }
      EpochOrder(m, next);
    }
  }

  lemma SameMonthSlot(s: Schedule, a: Moment, b: Moment)
    requires s.frequency == Monthly && IsSlot(s, a) && IsSlot(s, b) && Index(a, Month) == Index(b, Month)
    ensures a == b
  {
  }

  lemma MonthlyIsNext(s: Schedule, now: Moment)
    requires Sensible(s) && s.frequency == Monthly && s.dayOfMonth.Some? && Valid(now)
    ensures IsNextSlot(s, now, NextSend(s, now))
  {
    AtHourIsValid(now, s.hour);
    var here := OnDayOfMonth(AtHour(now, s.hour), s.dayOfMonth);
    var next := NextSend(s, now);
    PassedMeans(here, now, s.hour);
    StepIsValid(here, Month);
    SlotAfter(now, next, s.hour);
    assert Index(next, Month) == Index(now, Month) + if Epoch(here) <= Epoch(now) then 1 else 0;
    if Index(now, Month) < Index(next, Month) { IndexOrder(now, next, Month); }
    forall m | IsSlot(s, m) && Epoch(now) < Epoch(m) ensures Epoch(next) <= Epoch(m) {
      if Index(m, Month) == Index(here, Month) { SameMonthSlot(s, here, m); }
      if Index(m, Month) == Index(next, Month) { SameMonthSlot(s, next, m); }
      if Index(m, Month) < Index(now, Month) { IndexOrder(m, now, Month); }
      if Index(next, Month) < Index(m, Month) { IndexOrder(next, m, Month); }
    }
  }

  /** The day that a monthly schedule without a day comes to: the last day of the month before, as far as this month
      has it. */
  function FallbackDay(now: Moment): int {
    var before := OnDayOfMonth(now, None);
    Min(before.day, DaysInMonth(now.year, now.month))
  }

  /** The hour of the fallback day has not begun. */
  predicate FallbackIsAhead(now: Moment, hour: int) {
    now.day < FallbackDay(now) || (now.day == FallbackDay(now) && HourOf(now) < hour)
  }

  /** Without a day a monthly schedule always gets the fallback day of the current month, which is in the future
      exactly while its hour has not begun. */
  lemma FallbackSend(s: Schedule, now: Moment)
    requires Sensible(s) && LacksDayOfMonth(s) && Valid(now)
    ensures NextSend(s, now) == Moment(now.year, now.month, FallbackDay(now), s.hour * HOUR_MS)
    ensures Epoch(now) < Epoch(NextSend(s, now)) <==> FallbackIsAhead(now, s.hour)
  {
    AtHourIsValid(now, s.hour);
    var before := OnDayOfMonth(AtHour(now, s.hour), None);
    assert Index(before, Month) < Index(now, Month);
    IndexOrder(before, now, Month);
    SlotAfter(now, NextSend(s, now), s.hour);
  }

  /** Next send is the least future slot: across week, month and year ends, the result is the earliest moment
      strictly after now with the schedule's hour and day, for every schedule but a monthly one without a day. That
      one's result is in the future exactly while the hour of the fallback day has not begun. */
  lemma NextSendIsNextSlot(s: Schedule, now: Moment)
    requires Sensible(s) && Valid(now)
    ensures !LacksDayOfMonth(s) ==> IsNextSlot(s, now, NextSend(s, now))
    ensures Epoch(now) < Epoch(NextSend(s, now)) <==> !LacksDayOfMonth(s) || FallbackIsAhead(now, s.hour)
  {
    if s.frequency == Daily {
      DailyIsNext(s, now);
    } else if s.frequency == Weekly {
      WeeklyIsNext(s, now);
    } else if s.dayOfMonth.Some? {
      MonthlyIsNext(s, now);
    } else {
      FallbackSend(s, now);
    }
  }

  /** The branches of `calculateNextSendAt`, which reassign one local. Neither day is ever undefined. */
  method CalculateNextSendAt(s: Schedule, now: Moment) returns (next: Moment)
    requires Sensible(s) && Valid(now)
    ensures next == NextSend(s, now)
    ensures !LacksDayOfMonth(s) ==> IsNextSlot(s, now, next)
  {
    next := AtHour(now, s.hour);
    if s.frequency == Daily {
      if HourOf(now) >= s.hour {
        next := NextDay(next);
      }
    } else if s.frequency == Weekly {
      var targetDay := if s.dayOfWeek == Some(7) || s.dayOfWeek.None? then 0 else s.dayOfWeek.value;
      next := OnWeekday(next, targetDay);
      if Passed(next, now, s.hour) {
        next := Add(next, Week);
      }
    } else {
      next := OnDayOfMonth(next, s.dayOfMonth);
      if Passed(next, now, s.hour) {
        next := Add(next, Month);
      }
    }
    NextSendIsNextSlot(s, now);
  }

  // ---------------------------------------------------------------- life cycle

  datatype Status = Active | Paused | Disabled

  datatype Subscription = Subscription(userId: string, schedule: Schedule, status: Status,
                                       nextSendAt: Option<Moment>, consecutiveFailures: int)

  /** The newest row of every subscription. */
  type Subscriptions = map<string, Subscription>

  /** The fields of an update request that bear on the schedule. */
  datatype Patch = Patch(frequency: Option<Frequency>, hour: Option<int>, dayOfWeek: Option<int>, dayOfMonth: Option<int>)

  ghost predicate SensiblePatch(p: Patch) {
    && (p.hour.Some? ==> 0 <= p.hour.value <= 23)
    && (p.dayOfWeek.Some? ==> 1 <= p.dayOfWeek.value <= 7)
    && (p.dayOfMonth.Some? ==> 1 <= p.dayOfMonth.value <= 28)
  }

  /** What the request leaves out stays as it is stored, nulls included. */
  function Patched(s: Schedule, p: Patch): Schedule {
    Schedule(if p.frequency.Some? then p.frequency.value else s.frequency,
             if p.hour.Some? then p.hour.value else s.hour,
             if p.dayOfWeek.Some? then p.dayOfWeek else s.dayOfWeek,
             if p.dayOfMonth.Some? then p.dayOfMonth else s.dayOfMonth)
  }

  datatype Operation =
    | Create(id: string, userId: string, schedule: Schedule)
    | Update(id: string, userId: string, patch: Patch)
    | PauseIt(id: string, userId: string)
    | ResumeIt(id: string, userId: string)
    | Delete(id: string, userId: string)
    | MarkSent(id: string)
    | MarkFailed(id: string)

  /** Disabled subscriptions are invisible to every read. */
  predicate Visible(table: Subscriptions, id: string) {
    id in table && table[id].status != Disabled
  }

  predicate VisibleTo(table: Subscriptions, id: string, userId: string) {
    Visible(table, id) && table[id].userId == userId
  }

  ghost predicate CanHappen(table: Subscriptions, op: Operation) {
    match op
    case Create(id, _, schedule) => id !in table && Sensible(schedule) && HasDay(schedule)
    case Update(_, _, patch) => SensiblePatch(patch)
    case _ => true
  }

  /** An operation on a subscription that it cannot see fails and changes nothing. */
  ghost function Apply(table: Subscriptions, op: Operation, now: Moment): Subscriptions
    requires CanHappen(table, op) && AllSensible(table)
  {
    match op
    case Create(id, userId, schedule) => table[id := Subscription(userId, schedule, Active, Some(NextSend(schedule, now)), 0)]
    case Update(id, userId, patch) =>
      if !VisibleTo(table, id, userId) then table
      else
        var schedule := Patched(table[id].schedule, patch);
        table[id := table[id].(schedule := schedule,
                               nextSendAt := if table[id].status == Active then Some(NextSend(schedule, now)) else None)]
    case PauseIt(id, userId) =>
      if !VisibleTo(table, id, userId) then table else table[id := table[id].(status := Paused, nextSendAt := None)]
    case ResumeIt(id, userId) =>
      if !VisibleTo(table, id, userId) then table
      else table[id := table[id].(status := Active, nextSendAt := Some(NextSend(table[id].schedule, now)))]
    case Delete(id, userId) =>
      if !VisibleTo(table, id, userId) then table else table[id := table[id].(status := Disabled, nextSendAt := None)]
    case MarkSent(id) =>
      if !Visible(table, id) then table
      else table[id := table[id].(nextSendAt := Some(NextSend(table[id].schedule, now)), consecutiveFailures := 0)]
    case MarkFailed(id) =>
      if !Visible(table, id) then table
      else
        var failures := table[id].consecutiveFailures + 1;
        table[id := table[id].(consecutiveFailures := failures, status := if failures >= 5 then Disabled else table[id].status)]
  }

  ghost predicate AllSensible(table: Subscriptions) {
    forall id | id in table :: Sensible(table[id].schedule)
  }

  /** Failures are counted to 5 and no further, and a subscription that could still send has fewer; an active
      one has a time for its next report. */
  ghost predicate Inv(table: Subscriptions) {
    && AllSensible(table)
    && forall id | id in table ::
         && 0 <= table[id].consecutiveFailures <= 5
         && (table[id].status != Disabled ==> table[id].consecutiveFailures <= 4)
         && (table[id].status == Active ==> table[id].nextSendAt.Some?)
  }

  lemma ApplyKeepsInv(table: Subscriptions, op: Operation, now: Moment)
    requires Inv(table) && CanHappen(table, op)
    ensures Inv(Apply(table, op, now))
  {
  }

  datatype Occurrence = Occurrence(op: Operation, now: Moment)

  ghost predicate IsRun(tables: seq<Subscriptions>, ops: seq<Occurrence>) {
    && |tables| == |ops| + 1
    && tables[0] == map[]
    && forall i | 0 <= i < |ops| :: AllSensible(tables[i]) && CanHappen(tables[i], ops[i].op)
                                    && tables[i + 1] == Apply(tables[i], ops[i].op, ops[i].now)
  }

  /** In every run no subscription counts more than five failures, and active ones know when to send next. */
  lemma {:induction false} RunKeepsInv(tables: seq<Subscriptions>, ops: seq<Occurrence>, n: nat)
    requires IsRun(tables, ops) && n < |tables|
    ensures Inv(tables[n])
  {
    if n > 0 {
      RunKeepsInv(tables, ops, n - 1);
      ApplyKeepsInv(tables[n - 1], ops[n - 1].op, ops[n - 1].now);
    }
  }

  /** Disabled is final: whatever happens afterwards, a disabled subscription keeps its row for ever. */
  lemma {:induction false} DisabledIsFinal(tables: seq<Subscriptions>, ops: seq<Occurrence>, i: nat, j: nat, id: string)
    requires IsRun(tables, ops) && i <= j < |tables|
    requires id in tables[i] && tables[i][id].status == Disabled
    ensures id in tables[j] && tables[j][id] == tables[i][id]
    decreases j - i
  {
    if i < j {
      DisabledIsFinal(tables, ops, i, j - 1, id);
    }
  }

  ghost predicate StaysOutOf(op: Operation, id: string) {
    op != MarkSent(id) && !(op.Delete? && op.id == id)
  }

  /** How often an operation of a run marked this subscription as failed. */
  ghost function FailureCount(ops: seq<Occurrence>, id: string): nat {
    if ops == [] then 0
    else FailureCount(ops[..|ops| - 1], id) + if ops[|ops| - 1].op == MarkFailed(id) then 1 else 0
  }

  /** What one operation other than a successful send or a deletion does to the counter. */
  lemma ApplyCounts(table: Subscriptions, op: Operation, now: Moment, id: string)
    requires AllSensible(table) && CanHappen(table, op) && id in table && StaysOutOf(op, id)
    ensures id in Apply(table, op, now)
    ensures var before, after := table[id], Apply(table, op, now)[id];
            if before.status == Disabled then after == before
            else after.consecutiveFailures == before.consecutiveFailures + (if op == MarkFailed(id) then 1 else 0)
                 && (after.status == Disabled <==> op == MarkFailed(id) && after.consecutiveFailures >= 5)
  {
  }

  /** The counter is exact: between two successful sends it is the number of failures since, capped at 5, and
      the subscription is disabled exactly when it reaches 5, unless it was deleted. */
  lemma {:induction false} FailuresAreCounted(tables: seq<Subscriptions>, ops: seq<Occurrence>, i: nat, j: nat, id: string)
    requires IsRun(tables, ops) && i <= j < |tables|
    requires id in tables[i] && tables[i][id].status != Disabled && tables[i][id].consecutiveFailures == 0
    requires forall k | i <= k < j :: StaysOutOf(ops[k].op, id)
    ensures id in tables[j]
    ensures tables[j][id].consecutiveFailures == if FailureCount(ops[i..j], id) >= 5 then 5 else FailureCount(ops[i..j], id)
    ensures tables[j][id].status == Disabled <==> FailureCount(ops[i..j], id) >= 5
    decreases j - i
  {
    if i < j {
      FailuresAreCounted(tables, ops, i, j - 1, id);
      assert ops[i..j][..j - 1 - i] == ops[i..j - 1];
      assert ops[i..j][j - 1 - i] == ops[j - 1];
      ApplyCounts(tables[j - 1], ops[j - 1].op, ops[j - 1].now, id);
    }
  }

  /** Failures since the last success, or since creation. */
  function FailuresInARow(ops: seq<Occurrence>, id: string): nat {
    if ops == [] then 0
    else
      var op := ops[|ops| - 1].op;
      if op == MarkFailed(id) then FailuresInARow(ops[..|ops| - 1], id) + 1
      else if op == MarkSent(id) || (op.Create? && op.id == id) then 0
      else FailuresInARow(ops[..|ops| - 1], id)
  }

  /** Operation k deletes the subscription on behalf of its owner. */
  ghost predicate DeletedAt(tables: seq<Subscriptions>, ops: seq<Occurrence>, k: nat, id: string)
    requires k < |ops| && k < |tables|
  {
    id in tables[k] && ops[k].op == Delete(id, tables[k][id].userId)
  }

  /** Operation k reports a failure that is at least the fifth in a row. */
  ghost predicate FiveInARowAt(tables: seq<Subscriptions>, ops: seq<Occurrence>, k: nat, id: string)
    requires k < |ops| && k < |tables|
  {
    id in tables[k] && ops[k].op == MarkFailed(id) && FailuresInARow(ops[..k + 1], id) >= 5
  }

  ghost predicate Ended(tables: seq<Subscriptions>, ops: seq<Occurrence>, n: nat, id: string)
    requires n <= |ops| && n <= |tables|
  {
    exists k :: 0 <= k < n && (DeletedAt(tables, ops, k, id) || FiveInARowAt(tables, ops, k, id))
  }

  function Counted(failures: nat, op: Operation, id: string): nat {
    if op == MarkFailed(id) then failures + 1
    else if op == MarkSent(id) || (op.Create? && op.id == id) then 0
    else failures
  }

  ghost predicate Gone(table: Subscriptions, id: string) {
    id in table && table[id].status == Disabled
  }

  /** What one operation does to a subscription's failures, if the counter is right before it. */
  ghost predicate CountsOn(before: Subscriptions, op: Operation, after: Subscriptions, id: string, failures: nat) {
    (Visible(before, id) ==> before[id].consecutiveFailures == failures <= 4) && id in after ==>
      var counted := Counted(failures, op, id);
      var deleted := id in before && op == Delete(id, before[id].userId);
      && (after[id].status != Disabled ==> after[id].consecutiveFailures == counted <= 4)
      && (after[id].status == Disabled <==> Gone(before, id) || deleted || (id in before && op == MarkFailed(id) && counted >= 5))
      && (after[id].status == Disabled && !deleted ==>
            after[id].consecutiveFailures == if Gone(before, id) then before[id].consecutiveFailures else 5)
  }

  lemma CounterStep(table: Subscriptions, op: Operation, now: Moment, id: string, failures: nat)
    requires AllSensible(table) && CanHappen(table, op)
    ensures CountsOn(table, op, Apply(table, op, now), id, failures)
    ensures id in table ==> id in Apply(table, op, now)
  {
  }

  ghost predicate CountsAt(tables: seq<Subscriptions>, ops: seq<Occurrence>, k: nat, id: string)
    requires k < |ops| && k + 1 < |tables|
  {
    && CountsOn(tables[k], ops[k].op, tables[k + 1], id, FailuresInARow(ops[..k], id))
    && (id in tables[k] ==> id in tables[k + 1])
  }

  lemma OneMoreOp(ops: seq<Occurrence>, k: nat, id: string)
    requires k < |ops|
    ensures FailuresInARow(ops[..k + 1], id) == Counted(FailuresInARow(ops[..k], id), ops[k].op, id)
  {
    assert ops[..k + 1][..k] == ops[..k];
  }

  lemma EndedStep(tables: seq<Subscriptions>, ops: seq<Occurrence>, n: nat, id: string)
    requires 0 < n <= |ops| && n <= |tables|
    ensures Ended(tables, ops, n, id) <==>
            Ended(tables, ops, n - 1, id) || DeletedAt(tables, ops, n - 1, id) || FiveInARowAt(tables, ops, n - 1, id)
  {
  }

  ghost predicate Deleted(tables: seq<Subscriptions>, ops: seq<Occurrence>, n: nat, id: string)
    requires n <= |ops| && n <= |tables|
  {
    exists k :: 0 <= k < n && DeletedAt(tables, ops, k, id)
  }

  lemma {:induction false} FailuresFollow(tables: seq<Subscriptions>, ops: seq<Occurrence>, n: nat, id: string)
    requires |tables| == |ops| + 1 && tables[0] == map[] && n < |tables| && forall k | 0 <= k < n :: CountsAt(tables, ops, k, id)
    ensures id !in tables[n] ==> !Ended(tables, ops, n, id)
    ensures Visible(tables[n], id) ==> tables[n][id].consecutiveFailures == FailuresInARow(ops[..n], id) <= 4
    ensures id in tables[n] ==> (tables[n][id].status == Disabled <==> Ended(tables, ops, n, id))
    ensures Gone(tables[n], id) && !Deleted(tables, ops, n, id) ==> tables[n][id].consecutiveFailures == 5
  {
    if n > 0 {
      FailuresFollow(tables, ops, n - 1, id);
      assert CountsAt(tables, ops, n - 1, id);
      OneMoreOp(ops, n - 1, id);
      EndedStep(tables, ops, n, id);
      if DeletedAt(tables, ops, n - 1, id) { assert Deleted(tables, ops, n, id); }
    }
  }

  /** Consecutive failures, not failures in all, end a subscription. While it is not disabled its counter is the number of
      failures since the last success, or since it was created; and it is disabled if and only if its owner deleted it or
      a failure was the fifth in a row, in which case the counter stays at five. */
  lemma ConsecutiveFailures(tables: seq<Subscriptions>, ops: seq<Occurrence>, n: nat, id: string)
    requires IsRun(tables, ops) && n < |tables| && id in tables[n]
    ensures tables[n][id].status != Disabled ==> tables[n][id].consecutiveFailures == FailuresInARow(ops[..n], id) <= 4
    ensures tables[n][id].status == Disabled <==> Ended(tables, ops, n, id)
    ensures tables[n][id].status == Disabled && !Deleted(tables, ops, n, id) ==> tables[n][id].consecutiveFailures == 5
  {
    forall k | 0 <= k < n ensures CountsAt(tables, ops, k, id) {
      CounterStep(tables[k], ops[k].op, ops[k].now, id, FailuresInARow(ops[..k], id));
    }
    FailuresFollow(tables, ops, n, id);
  }

  // ---------------------------------------------------------------- what each operation is for

  /** The operation is about this subscription and may be carried out: by its owner, or by the scheduler. */
  ghost predicate Concerns(table: Subscriptions, op: Operation, id: string) {
    op.id == id && match op
                   case Create(_, _, _) => true
                   case MarkSent(_) => Visible(table, id)
                   case MarkFailed(_) => Visible(table, id)
                   case Update(_, userId, _) => VisibleTo(table, id, userId)
                   case PauseIt(_, userId) => VisibleTo(table, id, userId)
                   case ResumeIt(_, userId) => VisibleTo(table, id, userId)
                   case Delete(_, userId) => VisibleTo(table, id, userId)
  }

  /** Nobody changes another user's subscription, or a disabled one, or any other than the one named; and none changes
      hands. */
  lemma OthersAreUntouched(table: Subscriptions, op: Operation, now: Moment, id: string)
    requires AllSensible(table) && CanHappen(table, op) && id in table
    ensures id in Apply(table, op, now) && Apply(table, op, now)[id].userId == table[id].userId
    ensures !Concerns(table, op, id) ==> Apply(table, op, now)[id] == table[id]
  {
  }

  /** An update changes the fields it gives and keeps those it leaves out; nothing else changes a schedule. */
  lemma ScheduleFollows(table: Subscriptions, op: Operation, now: Moment, id: string)
    requires AllSensible(table) && CanHappen(table, op) && Concerns(table, op, id)
    ensures var s := Apply(table, op, now)[id].schedule;
            match op
            case Create(_, userId, schedule) => s == schedule && Apply(table, op, now)[id].userId == userId
            case Update(_, _, p) =>
              var before := table[id].schedule;
              && s.frequency == (if p.frequency.Some? then p.frequency.value else before.frequency)
              && s.hour == (if p.hour.Some? then p.hour.value else before.hour)
              && s.dayOfWeek == (if p.dayOfWeek.Some? then p.dayOfWeek else before.dayOfWeek)
              && s.dayOfMonth == (if p.dayOfMonth.Some? then p.dayOfMonth else before.dayOfMonth)
            case _ => s == table[id].schedule
  {
  }

  /** The owner paused the subscription and has not resumed it since. */
  ghost predicate PausedLast(tables: seq<Subscriptions>, ops: seq<Occurrence>, n: nat, id: string)
    requires IsRun(tables, ops) && n <= |ops|
    decreases n
  {
    n > 0
    && var op := ops[n - 1].op;
       if Concerns(tables[n - 1], op, id) && (op.PauseIt? || op.ResumeIt? || op.Create?) then op.PauseIt?
       else PausedLast(tables, ops, n - 1, id)
  }

  lemma StatusStep(table: Subscriptions, op: Operation, now: Moment, id: string)
    requires AllSensible(table) && CanHappen(table, op) && Visible(Apply(table, op, now), id)
    ensures var paused := Apply(table, op, now)[id].status == Paused;
            if Concerns(table, op, id) && (op.PauseIt? || op.ResumeIt? || op.Create?) then paused <==> op.PauseIt?
            else Visible(table, id) && (paused <==> table[id].status == Paused)
  {
  }

  /** A subscription that is not disabled is paused exactly if its owner paused it last, and active otherwise. */
  lemma {:induction false} PausedIff(tables: seq<Subscriptions>, ops: seq<Occurrence>, n: nat, id: string)
    requires IsRun(tables, ops) && n < |tables| && Visible(tables[n], id)
    ensures tables[n][id].status == (if PausedLast(tables, ops, n, id) then Paused else Active)
  {
    var op, now := ops[n - 1].op, ops[n - 1].now;
    StatusStep(tables[n - 1], op, now, id);
    if Visible(tables[n - 1], id) {
      PausedIff(tables, ops, n - 1, id);
    }
  }

  /** Operations that compute the next time: creation, a success, resuming, and updating while active. */
  ghost predicate Reschedules(table: Subscriptions, op: Operation, id: string) {
    Concerns(table, op, id)
    && (op.Create? || op.MarkSent? || op.ResumeIt? || (op.Update? && table[id].status == Active))
  }

  lemma NextTimeStep(table: Subscriptions, op: Operation, now: Moment, id: string)
    requires AllSensible(table) && CanHappen(table, op) && id in Apply(table, op, now) && Apply(table, op, now)[id].status == Active
    ensures var after := Apply(table, op, now)[id];
            if Reschedules(table, op, id) then after.nextSendAt == Some(NextSend(after.schedule, now))
            else id in table && table[id].status == Active && after.nextSendAt == table[id].nextSendAt && after.schedule == table[id].schedule
  {
  }

  /** The next time of an active subscription is the next slot of its present schedule, as of the last creation, success,
      resumption or update; a failure leaves it, so that the report is tried again. */
  lemma {:induction false} NextTimeFollows(tables: seq<Subscriptions>, ops: seq<Occurrence>, n: nat, id: string) returns (k: nat)
    requires IsRun(tables, ops) && n < |tables| && id in tables[n] && tables[n][id].status == Active
    ensures k < n && Reschedules(tables[k], ops[k].op, id)
    ensures forall i | k < i < n :: !Reschedules(tables[i], ops[i].op, id)
    ensures AllSensible(tables[n]) && tables[n][id].nextSendAt == Some(NextSend(tables[n][id].schedule, ops[k].now))
  {
    RunKeepsInv(tables, ops, n);
    RunKeepsInv(tables, ops, n - 1);
    var op, now := ops[n - 1].op, ops[n - 1].now;
    NextTimeStep(tables[n - 1], op, now, id);
    if Reschedules(tables[n - 1], op, id) {
      k := n - 1;
    } else {
      k := NextTimeFollows(tables, ops, n - 1, id);
    }
  }

  /** The rows that `findDue` selects. */
  ghost predicate IsDue(s: Subscription, now: Moment) {
    s.status == Active && s.nextSendAt.Some? && Epoch(s.nextSendAt.value) <= Epoch(now)
  }

  /** A report just sent is due again at once exactly when its schedule is monthly without a day and the hour of
      this month's fallback day has begun. */
  lemma SentIsNotDue(table: Subscriptions, id: string, now: Moment)
    requires AllSensible(table) && Visible(table, id) && table[id].status == Active && Valid(now)
    ensures IsDue(Apply(table, MarkSent(id), now)[id], now) <==>
            LacksDayOfMonth(table[id].schedule) && !FallbackIsAhead(now, table[id].schedule.hour)
  {
    NextSendIsNextSlot(table[id].schedule, now);
  }

  /** That happens: a daily report is made monthly without giving a day, and sent on March 29, when the fallback day
      is the 28th. It is due again at that very moment. */
  lemma SentAgainAndAgain() returns (tables: seq<Subscriptions>, ops: seq<Occurrence>)
    ensures IsRun(tables, ops) && |ops| == 3 && ops[2].op == MarkSent("s")
    ensures "s" in tables[3] && IsDue(tables[3]["s"], ops[2].now)
  {
    var now := Moment(2025, 3, 29, 9 * HOUR_MS);
    var daily := Schedule(Daily, 8, None, None);
    ops := [Occurrence(Create("s", "u", daily), now),
            Occurrence(Update("s", "u", Patch(Some(Monthly), None, None, None)), now),
            Occurrence(MarkSent("s"), now)];
    var t0: Subscriptions := map[];
    var t1 := Apply(t0, ops[0].op, now);
    var t2 := Apply(t1, ops[1].op, now);
    var t3 := Apply(t2, ops[2].op, now);
    tables := [t0, t1, t2, t3];
    assert t2["s"].schedule == Schedule(Monthly, 8, None, None) && t2["s"].status == Active;
    SentIsNotDue(t2, "s", now);
    forall i | 0 <= i < 3
      ensures AllSensible(tables[i]) && CanHappen(tables[i], ops[i].op)
      ensures tables[i + 1] == Apply(tables[i], ops[i].op, ops[i].now)
    {
      if i == 0 {} else if i == 1 {} else {}
    }
  }

  class SubscriptionsService {
    /** The `report_subscriptions` table as a deduplicating read shows it. */
    var table: Subscriptions

    constructor ()
      ensures table == map[]
    {
      table := map[];
    }

    method CreateSubscription(id: string, userId: string, schedule: Schedule, now: Moment)
      requires Inv(table) && id !in table && Sensible(schedule) && HasDay(schedule) && Valid(now)
      modifies this
      ensures table == Apply(old(table), Create(id, userId, schedule), now) && Inv(table)
    {
      var nextSendAt := CalculateNextSendAt(schedule, now);
      table := table[id := Subscription(userId, schedule, Active, Some(nextSendAt), 0)];
    }

    method SendSucceeded(id: string, now: Moment) returns (found: bool)
      requires Inv(table) && Valid(now)
      modifies this
      ensures table == Apply(old(table), MarkSent(id), now) && Inv(table)
      ensures found <==> Visible(old(table), id)
    {
      if id !in table || table[id].status == Disabled { return false; }
      var existing := table[id];
      var nextSendAt := CalculateNextSendAt(existing.schedule, now);
      table := table[id := existing.(nextSendAt := Some(nextSendAt), consecutiveFailures := 0)];
      return true;
    }

    method SendFailed(id: string, ghost now: Moment) returns (found: bool)
      requires Inv(table)
      modifies this
      ensures table == Apply(old(table), MarkFailed(id), now) && Inv(table)
      ensures found <==> Visible(old(table), id)
    {
      if id !in table || table[id].status == Disabled { return false; }
      var existing := table[id];
      var consecutiveFailures := existing.consecutiveFailures + 1;
      var shouldDisable := consecutiveFailures >= 5;
      table := table[id := existing.(consecutiveFailures := consecutiveFailures,
                                     status := if shouldDisable then Disabled else existing.status)];
      return true;
    }

    method UpdateSubscription(id: string, userId: string, patch: Patch, now: Moment) returns (found: bool)
      requires Inv(table) && SensiblePatch(patch) && Valid(now)
      modifies this
      ensures table == Apply(old(table), Update(id, userId, patch), now) && Inv(table)
      ensures found <==> VisibleTo(old(table), id, userId)
    {
      if id !in table || table[id].status == Disabled || table[id].userId != userId { return false; }
      var existing := table[id];
      var schedule := Patched(existing.schedule, patch);
      var nextSendAt := None;
      if existing.status == Active {
        var next := CalculateNextSendAt(schedule, now);
        nextSendAt := Some(next);
      }
      table := table[id := existing.(schedule := schedule, nextSendAt := nextSendAt)];
      return true;
    }

    method PauseSubscription(id: string, userId: string, ghost now: Moment) returns (found: bool)
      requires Inv(table)
      modifies this
      ensures table == Apply(old(table), PauseIt(id, userId), now) && Inv(table)
      ensures found <==> VisibleTo(old(table), id, userId)
    {
      if id !in table || table[id].status == Disabled || table[id].userId != userId { return false; }
      table := table[id := table[id].(status := Paused, nextSendAt := None)];
      return true;
    }

    method DeleteSubscription(id: string, userId: string, ghost now: Moment) returns (found: bool)
      requires Inv(table)
      modifies this
      ensures table == Apply(old(table), Delete(id, userId), now) && Inv(table)
      ensures found <==> VisibleTo(old(table), id, userId)
    {
      if id !in table || table[id].status == Disabled || table[id].userId != userId { return false; }
      table := table[id := table[id].(status := Disabled, nextSendAt := None)];
      return true;
    }

    method ResumeSubscription(id: string, userId: string, now: Moment) returns (found: bool)
      requires Inv(table) && Valid(now)
      modifies this
      ensures table == Apply(old(table), ResumeIt(id, userId), now) && Inv(table)
      ensures found <==> VisibleTo(old(table), id, userId)
    {
      if id !in table || table[id].status == Disabled || table[id].userId != userId { return false; }
      var existing := table[id];
      var nextSendAt := CalculateNextSendAt(existing.schedule, now);
      table := table[id := existing.(status := Active, nextSendAt := Some(nextSendAt))];
      return true;
    }
  }
}
