/** Local calendar time at a fixed UTC offset, as dayjs steps through it. */
module Calendar {
  import opened Decimal

  const HOUR_MS := 3600000
  const DAY_MS := 86400000

  /** A local date and the milliseconds since its midnight. */
  datatype Moment = Moment(year: int, month: int, day: int, ms: int)

  datatype Unit = Hour | Day | Week | Month | Year

  // ---------------------------------------------------------------- dates and their order

  predicate IsLeap(year: int) {
    year % 4 == 0 && (year % 100 != 0 || year % 400 == 0)
  }

  function DaysInMonth(year: int, month: int): int {
    if month == 2 then (if IsLeap(year) then 29 else 28)
    else if month == 4 || month == 6 || month == 9 || month == 11 then 30
    else 31
  }

  predicate Valid(m: Moment) {
    && 1 <= m.month <= 12 && 1 <= m.day <= DaysInMonth(m.year, m.month)
    && 0 <= m.ms < DAY_MS
  }

  function DaysBeforeYear(year: int): int {
    365 * year + (year + 3) / 4 - (year + 99) / 100 + (year + 399) / 400
  }

  function DaysBeforeMonth(year: int, month: int): int {
    (match month
     case 1 => 0 case 2 => 31 case 3 => 59 case 4 => 90 case 5 => 120 case 6 => 151
     case 7 => 181 case 8 => 212 case 9 => 243 case 10 => 273 case 11 => 304 case _ => 334)
    + if month > 2 && IsLeap(year) then 1 else 0
  }

  /** Days since January 1 of year 0, a Saturday. */
  function DayNumber(m: Moment): int {
    DaysBeforeYear(m.year) + DaysBeforeMonth(m.year, m.month) + m.day - 1
  }

  /** Local milliseconds: what isBefore and isSame compare. */
  function Epoch(m: Moment): int {
    DayNumber(m) * DAY_MS + m.ms
  }

  lemma YearLength(year: int)
    ensures DaysBeforeYear(year + 1) == DaysBeforeYear(year) + 365 + if IsLeap(year) then 1 else 0
  {
    assert (year + 4) / 4 == (year + 3) / 4 + if year % 4 == 0 then 1 else 0;
    assert (year + 100) / 100 == (year + 99) / 100 + if year % 100 == 0 then 1 else 0;
    assert (year + 400) / 400 == (year + 399) / 400 + if year % 400 == 0 then 1 else 0;
  }

  lemma MonthLength(year: int, month: int)
    requires 1 <= month <= 12
    ensures month < 12 ==> DaysBeforeMonth(year, month + 1) == DaysBeforeMonth(year, month) + DaysInMonth(year, month)
    ensures month == 12 ==> DaysBeforeMonth(year, 12) + 31 == 365 + if IsLeap(year) then 1 else 0
  {
  }

  lemma {:induction false} MonthsAscend(year: int, a: int, b: int)
    requires 1 <= a < b <= 12
    ensures DaysBeforeMonth(year, a) + DaysInMonth(year, a) <= DaysBeforeMonth(year, b)
    decreases b
  {
    MonthLength(year, b - 1);
    if a < b - 1 {
      MonthsAscend(year, a, b - 1);
    }
  }

  lemma {:induction false} YearsAscend(a: int, b: int)
    requires a <= b
    ensures DaysBeforeYear(a) + 365 * (b - a) <= DaysBeforeYear(b)
    decreases b - a
  {
    if a < b {
      YearLength(b - 1);
      YearsAscend(a, b - 1);
    }
  }

  lemma DayInYear(m: Moment)
    requires Valid(m)
    ensures DaysBeforeYear(m.year) <= DayNumber(m) < DaysBeforeYear(m.year + 1)
  {
    YearLength(m.year);
    MonthLength(m.year, m.month);
    if m.month < 12 {
      MonthsAscend(m.year, m.month, 12);
      MonthLength(m.year, 12);
    }
    if m.month > 1 {
      MonthsAscend(m.year, 1, m.month);
    }
  }

  predicate DateBefore(a: Moment, b: Moment) {
    a.year < b.year || (a.year == b.year && (a.month < b.month || (a.month == b.month && a.day < b.day)))
  }

  /** Day numbers follow the order of dates. */
  lemma DayNumberAscends(a: Moment, b: Moment)
    requires Valid(a) && Valid(b) && DateBefore(a, b)
    ensures DayNumber(a) < DayNumber(b)
  {
    if a.year < b.year {
      DayInYear(a);
      DayInYear(b);
      YearsAscend(a.year + 1, b.year);
    } else if a.month < b.month {
      MonthsAscend(a.year, a.month, b.month);
    }
  }

  lemma SameDayNumberSameDate(a: Moment, b: Moment)
    requires Valid(a) && Valid(b) && DayNumber(a) == DayNumber(b)
    ensures a.year == b.year && a.month == b.month && a.day == b.day
  {
    if DateBefore(a, b) { DayNumberAscends(a, b); } else if DateBefore(b, a) { DayNumberAscends(b, a); }
  }

  lemma EpochOrder(a: Moment, b: Moment)
    requires Valid(a) && Valid(b)
    ensures Epoch(a) < Epoch(b) <==> DayNumber(a) < DayNumber(b) || (DayNumber(a) == DayNumber(b) && a.ms < b.ms)
  {
    if DayNumber(a) < DayNumber(b) {
      assert (DayNumber(a) + 1) * DAY_MS <= DayNumber(b) * DAY_MS;
    } else if DayNumber(b) < DayNumber(a) {
      assert (DayNumber(b) + 1) * DAY_MS <= DayNumber(a) * DAY_MS;
    }
  }

  // ---------------------------------------------------------------- stepping

  function NextDay(m: Moment): Moment {
    if m.day < DaysInMonth(m.year, m.month) then m.(day := m.day + 1)
    else if m.month < 12 then m.(month := m.month + 1, day := 1)
    else m.(year := m.year + 1, month := 1, day := 1)
  }

  function AddHour(m: Moment): Moment {
    if m.ms + HOUR_MS < DAY_MS then m.(ms := m.ms + HOUR_MS) else NextDay(m).(ms := m.ms + HOUR_MS - DAY_MS)
  }

  function AddDays(m: Moment, n: nat): Moment {
    if n == 0 then m else NextDay(AddDays(m, n - 1))
  }

  function Min(a: int, b: int): int { if a <= b then a else b }

  /** Keeps the day of the month, or the month's last day if it has fewer. */
  function InMonth(m: Moment, year: int, month: int): Moment {
    Moment(year, month, Min(m.day, DaysInMonth(year, month)), m.ms)
  }

  function AddMonth(m: Moment): Moment {
    if m.month < 12 then InMonth(m, m.year, m.month + 1) else InMonth(m, m.year + 1, 1)
  }

  function AddYear(m: Moment): Moment {
    InMonth(m, m.year + 1, m.month)
  }

  function Add(m: Moment, unit: Unit): Moment {
    match unit
    case Hour => AddHour(m)
    case Day => NextDay(m)
    case Week => AddDays(m, 7)
    case Month => AddMonth(m)
    case Year => AddYear(m)
  }

  lemma NextDayCounts(m: Moment)
    requires Valid(m)
    ensures Valid(NextDay(m)) && DayNumber(NextDay(m)) == DayNumber(m) + 1
  {
    MonthLength(m.year, m.month);
    YearLength(m.year);
  }

  lemma {:induction false} AddDaysCounts(m: Moment, n: nat)
    requires Valid(m)
    ensures Valid(AddDays(m, n)) && DayNumber(AddDays(m, n)) == DayNumber(m) + n && AddDays(m, n).ms == m.ms
  {
    if n > 0 {
      AddDaysCounts(m, n - 1);
      NextDayCounts(AddDays(m, n - 1));
    }
  }

  lemma StepIsValid(m: Moment, unit: Unit)
    requires Valid(m)
    ensures Valid(Add(m, unit))
  {
    match unit {
      case Hour => NextDayCounts(m);
      case Day => NextDayCounts(m);
      case Week => AddDaysCounts(m, 7);
      case Month =>
      case Year =>
    }
  }

  // ---------------------------------------------------------------- weeks

  /** 0 is Sunday, 6 is Saturday. */
  function Weekday(m: Moment): int { WeekdayOf(DayNumber(m)) }

  /** Weeks from Monday to Sunday, and weeks from Sunday to Saturday. */
  function IsoWeek(m: Moment): int { IsoWeekOf(DayNumber(m)) }
  function LocaleWeek(m: Moment): int { LocaleWeekOf(DayNumber(m)) }

  function WeekdayOf(n: int): int { (n + 6) % 7 }
  function IsoWeekOf(n: int): int { (n + 5) / 7 }
  function LocaleWeekOf(n: int): int { (n + 6) / 7 }

  /** Days since the week's Monday. */
  function SinceMonday(n: int): int { (n + 5) % 7 }

  lemma MondayOf(n: int)
    ensures var monday := n - SinceMonday(n);
            WeekdayOf(monday) == 1 && IsoWeekOf(monday) == IsoWeekOf(n) && monday <= n < monday + 7
  {
  }

  lemma WeeksOf(n: int)
    ensures WeekdayOf(n) == 1 ==> n == 7 * IsoWeekOf(n) - 5 && LocaleWeekOf(n) == IsoWeekOf(n)
    ensures LocaleWeekOf(n) == IsoWeekOf(n) + if WeekdayOf(n) == 0 then 1 else 0
    ensures 7 * IsoWeekOf(n) - 5 <= n < 7 * IsoWeekOf(n) + 2
    ensures WeekdayOf(n + 7) == WeekdayOf(n) && IsoWeekOf(n + 7) == IsoWeekOf(n) + 1
  {
  }

  function PreviousDay(m: Moment): Moment {
    if m.day > 1 then m.(day := m.day - 1)
    else if m.month > 1 then m.(month := m.month - 1, day := DaysInMonth(m.year, m.month - 1))
    else m.(year := m.year - 1, month := 12, day := 31)
  }

  lemma PreviousDayCounts(m: Moment)
    requires Valid(m)
    ensures Valid(PreviousDay(m)) && DayNumber(PreviousDay(m)) == DayNumber(m) - 1
  {
    if m.day == 1 && m.month > 1 {
      MonthLength(m.year, m.month - 1);
    } else if m.day == 1 {
      YearLength(m.year - 1);
      MonthLength(m.year - 1, 12);
    }
  }

  function GoBack(m: Moment, n: nat): Moment {
    if n == 0 then m else PreviousDay(GoBack(m, n - 1))
  }

  lemma {:induction false} GoBackCounts(m: Moment, n: nat)
    requires Valid(m)
    ensures Valid(GoBack(m, n)) && DayNumber(GoBack(m, n)) == DayNumber(m) - n && GoBack(m, n).ms == m.ms
  {
    if n > 0 {
      GoBackCounts(m, n - 1);
      PreviousDayCounts(GoBack(m, n - 1));
    }
  }

  /** Midnight of the week's Monday. */
  function StartOfIsoWeek(m: Moment): Moment {
    GoBack(m, SinceMonday(DayNumber(m))).(ms := 0)
  }

  lemma StartOfIsoWeekIsMonday(m: Moment)
    requires Valid(m)
    ensures var s := StartOfIsoWeek(m);
            Valid(s) && s.ms == 0 && Weekday(s) == 1 && IsoWeek(s) == IsoWeek(m) && DayNumber(s) <= DayNumber(m) < DayNumber(s) + 7
  {
    GoBackCounts(m, SinceMonday(DayNumber(m)));
    MondayOf(DayNumber(m));
    var back := GoBack(m, SinceMonday(DayNumber(m)));
    assert DayNumber(back.(ms := 0)) == DayNumber(back);
  }

  // ---------------------------------------------------------------- buckets

  /** The start of the hour, day, month or year; of a week's Monday it is that day. */
  function BucketStart(m: Moment, unit: Unit): Moment {
    match unit
    case Hour => m.(ms := m.ms / HOUR_MS * HOUR_MS)
    case Day => m.(ms := 0)
    case Week => m.(ms := 0)
    case Month => m.(day := 1, ms := 0)
    case Year => m.(month := 1, day := 1, ms := 0)
  }

  /** Buckets in a row have consecutive indices. */
  function Index(m: Moment, unit: Unit): int {
    match unit
    case Hour => DayNumber(m) * 24 + m.ms / HOUR_MS
    case Day => DayNumber(m)
    case Week => IsoWeek(m)
    case Month => m.year * 12 + m.month
    case Year => m.year
  }

  /** `isSame(other, unit)`. Weeks are compared from Sunday to Saturday. */
  predicate IsSame(a: Moment, b: Moment, unit: Unit) {
    if unit == Week then LocaleWeek(a) == LocaleWeek(b) else BucketStart(a, unit) == BucketStart(b, unit)
  }

  lemma HourParts(m: Moment)
    requires Valid(m)
    ensures 0 <= m.ms / HOUR_MS < 24
  {
  }

  lemma StepAdvancesIndex(m: Moment, unit: Unit)
    requires Valid(m)
    ensures Index(Add(m, unit), unit) == Index(m, unit) + 1
  {
    match unit {
      case Hour =>
        NextDayCounts(m);
        HourParts(m);
        assert (m.ms + HOUR_MS) / HOUR_MS == m.ms / HOUR_MS + 1;
        if m.ms + HOUR_MS >= DAY_MS {
          assert m.ms / HOUR_MS == 23;
          assert (m.ms + HOUR_MS - DAY_MS) / HOUR_MS == 0;
        }
      case Day => NextDayCounts(m);
      case Week =>
        AddDaysCounts(m, 7);
        WeeksOf(DayNumber(m));
      case Month =>
      case Year =>
    }
  }

  lemma IndexOrder(a: Moment, b: Moment, unit: Unit)
    requires Valid(a) && Valid(b) && Index(a, unit) < Index(b, unit)
    ensures Epoch(a) < Epoch(b)
  {
    EpochOrder(a, b);
    assert a.ms >= b.ms ==> a.ms / HOUR_MS >= b.ms / HOUR_MS;
    if DayNumber(a) >= DayNumber(b) {
      match unit {
        case Hour =>
          HourParts(a);
          HourParts(b);
        case Month => DayNumberAscends(a, b);
        case Year => DayNumberAscends(a, b);
        case _ =>
      }
    }
  }

  lemma SameIndexSameBucket(a: Moment, b: Moment, unit: Unit)
    requires Valid(a) && Valid(b) && unit != Week
    ensures Index(a, unit) == Index(b, unit) <==> BucketStart(a, unit) == BucketStart(b, unit)
  {
    match unit {
      case Hour =>
        HourParts(a);
        HourParts(b);
        if Index(a, unit) == Index(b, unit) {
          assert DayNumber(a) == DayNumber(b);
          SameDayNumberSameDate(a, b);
        }
        if BucketStart(a, unit) == BucketStart(b, unit) {
          assert a.ms / HOUR_MS == b.ms / HOUR_MS;
        }
      case Day => if DayNumber(a) == DayNumber(b) { SameDayNumberSameDate(a, b); }
      case Month =>
      case Year =>
    }
  }

  // ---------------------------------------------------------------- enumeration

  /** The loop condition of the enumeration. */
  predicate More(current: Moment, end: Moment, unit: Unit) {
    Epoch(current) < Epoch(end) || IsSame(current, end, unit)
  }

  /** The index of the last bucket listed: the end's, and one more for weeks that end on a Sunday. */
  function LastIndex(end: Moment, unit: Unit): int {
    Index(end, unit) + if unit == Week && Weekday(end) == 0 then 1 else 0
  }

  /** What the enumeration starts from. */
  ghost predicate Aligned(m: Moment, unit: Unit) {
    Valid(m) && (unit == Week ==> m.ms == 0 && Weekday(m) == 1)
  }

  lemma WeekLoopCondition(current: Moment, end: Moment)
    requires Aligned(current, Week) && Valid(end)
    ensures More(current, end, Week) <==> IsoWeek(current) <= IsoWeek(end) + if Weekday(end) == 0 then 1 else 0
  {
    EpochOrder(current, end);
    WeeksOf(DayNumber(current));
    WeeksOf(DayNumber(end));
  }

  lemma LoopCondition(current: Moment, end: Moment, unit: Unit)
    requires Aligned(current, unit) && Valid(end)
    ensures More(current, end, unit) <==> Index(current, unit) <= LastIndex(end, unit)
  {
    if unit == Week {
      WeekLoopCondition(current, end);
    } else {
      SameIndexSameBucket(current, end, unit);
      if Index(current, unit) < Index(end, unit) {
        IndexOrder(current, end, unit);
      } else if Index(end, unit) < Index(current, unit) {
        IndexOrder(end, current, unit);
      }
    }
  }

  lemma StepKeepsAligned(m: Moment, unit: Unit)
    requires Aligned(m, unit)
    ensures Aligned(Add(m, unit), unit)
  {
    StepIsValid(m, unit);
    if unit == Week {
      AddDaysCounts(m, 7);
      WeeksOf(DayNumber(m));
    }
  }

  /** A list of moments, one in each of the buckets with these indices, in order. */
  ghost predicate Covers(buckets: seq<Moment>, first: int, last: int, unit: Unit) {
    && |buckets| == (if first <= last then last - first + 1 else 0)
    && forall i | 0 <= i < |buckets| ::
         Aligned(buckets[i], unit) && buckets[i] == BucketStart(buckets[i], unit) && Index(buckets[i], unit) == first + i
  }

  lemma BucketStartAligned(m: Moment, unit: Unit)
    requires Aligned(m, unit)
    ensures Aligned(BucketStart(m, unit), unit)
    ensures BucketStart(BucketStart(m, unit), unit) == BucketStart(m, unit)
    ensures Index(BucketStart(m, unit), unit) == Index(m, unit)
  {
    if unit == Hour {
      HourParts(m);
      assert m.ms / HOUR_MS * HOUR_MS / HOUR_MS == m.ms / HOUR_MS;
    }
  }

  /** Bucket enumeration: the loop ends and lists every hour, day, month or year bucket from the start's to the
      end's exactly once and in order, however months end and whatever February has; for weeks it lists every
      ISO week, and one more exactly when the end is a Sunday. */
  method EnumerateBuckets(start: Moment, end: Moment, unit: Unit) returns (allDates: seq<Moment>)
    requires Valid(start) && Valid(end)
    ensures Covers(allDates, Index(start, unit), LastIndex(end, unit), unit)
  {
    allDates := [];
    var current := start;
    if unit == Week {
      StartOfIsoWeekIsMonday(start);
      current := StartOfIsoWeek(current);
    }
    ghost var first := Index(start, unit);
    LoopCondition(current, end, unit);
    while More(current, end, unit)
      invariant Aligned(current, unit) && Index(current, unit) == first + |allDates|
      invariant More(current, end, unit) <==> Index(current, unit) <= LastIndex(end, unit)
      invariant |allDates| > 0 ==> first + |allDates| - 1 <= LastIndex(end, unit)
      invariant forall i | 0 <= i < |allDates| ::
                  Aligned(allDates[i], unit) && allDates[i] == BucketStart(allDates[i], unit) && Index(allDates[i], unit) == first + i
      decreases LastIndex(end, unit) - Index(current, unit)
    {
      BucketStartAligned(current, unit);
      StepAdvancesIndex(current, unit);
      StepKeepsAligned(current, unit);
      allDates := allDates + [BucketStart(current, unit)];
      current := Add(current, unit);
      LoopCondition(current, end, unit);
    }
  }

  /** Every moment between start and end falls into a listed bucket, which is its own. */
  lemma EveryMomentIsCovered(buckets: seq<Moment>, start: Moment, end: Moment, m: Moment, unit: Unit) returns (i: nat)
    requires Valid(start) && Valid(end) && Valid(m) && Epoch(start) <= Epoch(m) <= Epoch(end)
    requires Covers(buckets, Index(start, unit), LastIndex(end, unit), unit)
    ensures i < |buckets| && Index(buckets[i], unit) == Index(m, unit)
    ensures unit != Week ==> buckets[i] == BucketStart(m, unit)
    ensures unit == Week ==> buckets[i].ms == 0 && DayNumber(buckets[i]) <= DayNumber(m) < DayNumber(buckets[i]) + 7
  {
    if Index(m, unit) < Index(start, unit) { IndexOrder(m, start, unit); }
    if Index(end, unit) < Index(m, unit) { IndexOrder(end, m, unit); }
    i := Index(m, unit) - Index(start, unit);
    if unit == Week {
      WeeksOf(DayNumber(m));
      WeeksOf(DayNumber(buckets[i]));
    } else {
      SameIndexSameBucket(buckets[i], m, unit);
    }
  }

  /** Listed buckets ascend, so none is listed twice. */
  lemma BucketsAscend(buckets: seq<Moment>, first: int, last: int, unit: Unit, i: nat, j: nat)
    requires Covers(buckets, first, last, unit) && i < j < |buckets|
    ensures Epoch(buckets[i]) < Epoch(buckets[j])
  {
    IndexOrder(buckets[i], buckets[j], unit);
  }
}
