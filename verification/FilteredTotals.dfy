/** The two-stage totals query: group, keep the groups that pass HAVING, then aggregate the groups. */
module FilteredTotals {
  import opened EventTable
  import opened FilterBuilder

  // ---------------------------------------------------------------- metrics

  datatype Metric =
    | Sessions | MedianDuration | MaxScroll | MedianScroll | BounceRate | Pageviews | PagesPerSession | MedianPageDuration
    | PageCount | UniquePages | PageDuration | PageScroll | LandingPageCount | ExitPageCount | ExitRate
    | Goals | SumGoalValue | AvgGoalValue | MedianGoalValue | UniqueSessionsWithGoals

  function Name(m: Metric): string {
    match m
    case Sessions => "sessions"
    case MedianDuration => "median_duration"
    case MaxScroll => "max_scroll"
    case MedianScroll => "median_scroll"
    case BounceRate => "bounce_rate"
    case Pageviews => "pageviews"
    case PagesPerSession => "pages_per_session"
    case MedianPageDuration => "median_page_duration"
    case PageCount => "page_count"
    case UniquePages => "unique_pages"
    case PageDuration => "page_duration"
    case PageScroll => "page_scroll"
    case LandingPageCount => "landing_page_count"
    case ExitPageCount => "exit_page_count"
    case ExitRate => "exit_rate"
    case Goals => "goals"
    case SumGoalValue => "sum_goal_value"
    case AvgGoalValue => "avg_goal_value"
    case MedianGoalValue => "median_goal_value"
    case UniqueSessionsWithGoals => "unique_sessions_with_goals"
  }

  datatype RowTest = LessThan(column: string, bound: real) | TextIs(column: string, text: string)

  /** An aggregate over rows; a state is what merges into a median. */
  datatype Aggregate =
    | CountAll | CountWhere(test: RowTest) | SumColumn(column: string)
    | QuantileState(column: string) | AverageOf(of: Aggregate, scale: real)
    | UniqueIn(column: string) | MedianIn(column: string, divisor: real)

  datatype InnerPart = InnerPart(aggregate: Aggregate, alias: string)

  datatype OuterPart =
    | SumOf(alias: string)
    | RatioOf(numerator: string, denominator: string, scale: real)
    | MedianOf(alias: string, divisor: real)

  // ---------------------------------------------------------------- the compiler

  /** The metrics that the default branch passes through. */
  predicate IsDefault(m: Metric) {
    m !in {Sessions, BounceRate, MedianDuration, MedianScroll, PageCount, Goals, SumGoalValue, AvgGoalValue}
  }

  /** Their SQL before rounding: conditional counts, averages and rates, medians, and numbers of different values. */
  function DefaultAggregate(m: Metric): Aggregate
    requires IsDefault(m)
  {
    match m
    case Pageviews => CountWhere(TextIs("name", "screen_view"))
    case LandingPageCount => CountWhere(TextIs("is_landing", "true"))
    case ExitPageCount => CountWhere(TextIs("is_exit", "true"))
    case MaxScroll => AverageOf(SumColumn("max_scroll"), 1.0)
    case PagesPerSession => AverageOf(SumColumn("pageview_count"), 1.0)
    case ExitRate => AverageOf(CountWhere(TextIs("is_exit", "true")), 100.0)
    case MedianPageDuration => MedianIn("median_page_duration", 1000.0)
    case PageDuration => MedianIn("duration", 1000.0)
    case PageScroll => MedianIn("max_scroll", 1.0)
    case MedianGoalValue => MedianIn("goal_value", 1.0)
    case UniquePages => UniqueIn("path")
    case UniqueSessionsWithGoals => UniqueIn("session_id")
  }

  function CompileMetric(m: Metric, bounceThreshold: real): (seq<InnerPart>, OuterPart) {
    match m
    case Sessions => ([InnerPart(CountAll, "_sessions")], SumOf("_sessions"))
    case BounceRate =>
      ([InnerPart(CountWhere(LessThan("duration", bounceThreshold * 1000.0)), "_bounces"), InnerPart(CountAll, "_total")],
       RatioOf("_bounces", "_total", 100.0))
    case MedianDuration => ([InnerPart(QuantileState("duration"), "_duration_state")], MedianOf("_duration_state", 1000.0))
    case MedianScroll => ([InnerPart(QuantileState("max_scroll"), "_scroll_state")], MedianOf("_scroll_state", 1.0))
    case PageCount => ([InnerPart(CountAll, "_page_count")], SumOf("_page_count"))
    case Goals => ([InnerPart(CountAll, "_goals")], SumOf("_goals"))
    case SumGoalValue => ([InnerPart(SumColumn("goal_value"), "_sum_goal_value")], SumOf("_sum_goal_value"))
    case AvgGoalValue =>
      ([InnerPart(SumColumn("goal_value"), "_sum_value"), InnerPart(CountAll, "_goal_count")],
       RatioOf("_sum_value", "_goal_count", 1.0))
    case _ => ([InnerPart(DefaultAggregate(m), "_" + Name(m))], SumOf("_" + Name(m)))
  }

  function InnerParts(metrics: seq<Metric>, bounceThreshold: real): seq<InnerPart> {
    if metrics == [] then []
    else InnerParts(metrics[..|metrics| - 1], bounceThreshold) + CompileMetric(metrics[|metrics| - 1], bounceThreshold).0
  }

  function OuterParts(metrics: seq<Metric>, bounceThreshold: real): (r: seq<OuterPart>)
    ensures |r| == |metrics|
    ensures forall i | 0 <= i < |r| :: r[i] == CompileMetric(metrics[i], bounceThreshold).1
  {
    seq(|metrics|, i requires 0 <= i < |metrics| => CompileMetric(metrics[i], bounceThreshold).1)
  }

  /** The elements of a list, each at its first place. */
  function Unique(parts: seq<InnerPart>): seq<InnerPart> {
    if parts == [] then []
    else
      var n := |parts| - 1;
      if parts[n] in parts[..n] then Unique(parts[..n]) else Unique(parts[..n]) + [parts[n]]
  }

  lemma {:induction false} UniqueMembers(parts: seq<InnerPart>)
    ensures forall p :: p in Unique(parts) <==> p in parts
    ensures forall i, j | 0 <= i < j < |Unique(parts)| :: Unique(parts)[i] != Unique(parts)[j]
  {
    if parts != [] {
      var n := |parts| - 1;
      assert parts == parts[..n] + [parts[n]];
      UniqueMembers(parts[..n]);
    }
  }

  /** What tells the aliases apart: their length and their first letter. */
  function AliasCode(m: Metric, i: nat): (int, char) {
    match m
    case Sessions => (9, 's')
    case MedianDuration => (15, 'd')
    case MaxScroll => (11, 'm')
    case MedianScroll => (13, 's')
    case BounceRate => if i == 0 then (8, 'b') else (6, 't')
    case Pageviews => (10, 'p')
    case PagesPerSession => (18, 'p')
    case MedianPageDuration => (21, 'm')
    case PageCount => (11, 'p')
    case UniquePages => (13, 'u')
    case PageDuration => (14, 'p')
    case PageScroll => (12, 'p')
    case LandingPageCount => (19, 'l')
    case ExitPageCount => (16, 'e')
    case ExitRate => (10, 'e')
    case Goals => (6, 'g')
    case SumGoalValue => (15, 's')
    case AvgGoalValue => if i == 0 then (10, 's') else (11, 'g')
    case MedianGoalValue => (18, 'm')
    case UniqueSessionsWithGoals => (27, 'u')
  }

  lemma AliasHasCode(m: Metric, bounceThreshold: real, i: nat)
    requires i < |CompileMetric(m, bounceThreshold).0|
    ensures var alias := CompileMetric(m, bounceThreshold).0[i].alias;
            |alias| > 1 && (|alias|, alias[1]) == AliasCode(m, i)
  {
  }

  lemma CodesDiffer(a: Metric, i: nat, b: Metric, j: nat)
    requires AliasCode(a, i) == AliasCode(b, j)
    ensures a == b && (a == BounceRate || a == AvgGoalValue ==> (i == 0 <==> j == 0))
  {
  }

  /** No two different parts of any two metrics share an alias. */
  lemma AliasesDiffer(a: Metric, b: Metric, bounceThreshold: real, i: nat, j: nat)
    requires i < |CompileMetric(a, bounceThreshold).0| && j < |CompileMetric(b, bounceThreshold).0|
    requires CompileMetric(a, bounceThreshold).0[i].alias == CompileMetric(b, bounceThreshold).0[j].alias
    ensures CompileMetric(a, bounceThreshold).0[i] == CompileMetric(b, bounceThreshold).0[j]
  {
    AliasHasCode(a, bounceThreshold, i);
    AliasHasCode(b, bounceThreshold, j);
    CodesDiffer(a, i, b, j);
  }

  lemma {:induction false} InnerPartOrigin(metrics: seq<Metric>, bounceThreshold: real, p: InnerPart) returns (m: Metric, i: nat)
    requires p in InnerParts(metrics, bounceThreshold)
    ensures i < |CompileMetric(m, bounceThreshold).0| && CompileMetric(m, bounceThreshold).0[i] == p
  {
    var n := |metrics| - 1;
    if p in InnerParts(metrics[..n], bounceThreshold) {
      m, i := InnerPartOrigin(metrics[..n], bounceThreshold, p);
    } else {
      m := metrics[n];
      i :| 0 <= i < |CompileMetric(m, bounceThreshold).0| && CompileMetric(m, bounceThreshold).0[i] == p;
    }
  }

  lemma {:induction false} InnerPartsContain(metrics: seq<Metric>, bounceThreshold: real, k: nat)
    requires k < |metrics|
    ensures forall p | p in CompileMetric(metrics[k], bounceThreshold).0 :: p in InnerParts(metrics, bounceThreshold)
  {
    var n := |metrics| - 1;
    if k < n {
      InnerPartsContain(metrics[..n], bounceThreshold, k);
    }
  }

  /** After removing duplicates every alias of the inner query names one aggregate. */
  lemma AliasesAreUnique(metrics: seq<Metric>, bounceThreshold: real, i: nat, j: nat)
    requires i < j < |Unique(InnerParts(metrics, bounceThreshold))|
    ensures Unique(InnerParts(metrics, bounceThreshold))[i].alias != Unique(InnerParts(metrics, bounceThreshold))[j].alias
  {
    var parts := InnerParts(metrics, bounceThreshold);
    UniqueMembers(parts);
    var p, q := Unique(parts)[i], Unique(parts)[j];
    assert p in Unique(parts) && q in Unique(parts);
    if p.alias == q.alias {
      var a, k := InnerPartOrigin(metrics, bounceThreshold, p);
      var b, l := InnerPartOrigin(metrics, bounceThreshold, q);
      AliasesDiffer(a, b, bounceThreshold, k, l);
    }
  }

  // ---------------------------------------------------------------- evaluating

  datatype Row = Row(cells: map<string, Cell>)

  function At(row: Row, column: string): Cell {
    if column in row.cells then row.cells[column] else NullCell
  }

  function Passes(test: RowTest, row: Row): bool {
    match test
    case LessThan(column, bound) => At(row, column).Cell? && At(row, column).number < bound
    case TextIs(column, text) => At(row, column).Cell? && At(row, column).text == text
  }

  /** What one row adds to a count or a sum. */
  function Weight(a: Aggregate, row: Row): real {
    match a
    case CountAll => 1.0
    case CountWhere(test) => if Passes(test, row) then 1.0 else 0.0
    case SumColumn(column) => if At(row, column).Cell? then At(row, column).number else 0.0
    case _ => 0.0
  }

  function Total(a: Aggregate, rows: seq<Row>): real {
    if rows == [] then 0.0 else Total(a, rows[..|rows| - 1]) + Weight(a, rows[|rows| - 1])
  }

  /** The values of a column that are not null. */
  function Values(column: string, rows: seq<Row>): multiset<real> {
    if rows == [] then multiset{}
    else
      var cell := At(rows[|rows| - 1], column);
      Values(column, rows[..|rows| - 1]) + if cell.Cell? then multiset{cell.number} else multiset{}
  }

  function Distinct(column: string, rows: seq<Row>): set<string> {
    set r | r in rows && At(r, column).Cell? :: At(r, column).text
  }

  /** The database's median of some values. */
  type Median = multiset<real> -> real

  function Aggregated(a: Aggregate, rows: seq<Row>, median: Median): real {
    match a
    case AverageOf(of, scale) => Average(of, scale, rows)
    case UniqueIn(column) => |Distinct(column, rows)| as real
    case MedianIn(column, divisor) => if divisor != 0.0 then median(Values(column, rows)) / divisor else 0.0
    case _ => Total(a, rows)
  }

  /** An average, or a rate, of no rows is 0. */
  function Average(of: Aggregate, scale: real, rows: seq<Row>): real {
    Ratio(Total(of, rows), |rows| as real, scale)
  }

  /** Counts and sums add up. */
  predicate IsTotal(a: Aggregate) {
    a.CountAll? || a.CountWhere? || a.SumColumn?
  }

  type Key = seq<Cell>

  function KeyOf(row: Row, columns: seq<string>): Key {
    seq(|columns|, i requires 0 <= i < |columns| => At(row, columns[i]))
  }

  function Group(rows: seq<Row>, columns: seq<string>, k: Key): seq<Row> {
    if rows == [] then []
    else
      var n := |rows| - 1;
      Group(rows[..n], columns, k) + if KeyOf(rows[n], columns) == k then [rows[n]] else []
  }

  /** The keys of the groups, each once, in some order. */
  ghost predicate IsGrouping(keys: seq<Key>, rows: seq<Row>, columns: seq<string>) {
    && (forall i, j | 0 <= i < j < |keys| :: keys[i] != keys[j])
    && (forall r | r in rows :: KeyOf(r, columns) in keys)
    && (forall k | k in keys :: Group(rows, columns, k) != [])
  }

  /** The value that the inner query gives an alias in a group. */
  function InnerValue(parts: seq<InnerPart>, alias: string, rows: seq<Row>, median: Median): real {
    if parts == [] then 0.0
    else if parts[0].alias == alias then Aggregated(parts[0].aggregate, rows, median)
    else InnerValue(parts[1..], alias, rows, median)
  }

  /** sum(alias) over the groups whose key passes. */
  ghost function SumOverGroups(keys: seq<Key>, pass: Key -> bool, parts: seq<InnerPart>, alias: string,
                               rows: seq<Row>, columns: seq<string>, median: Median): real {
    if keys == [] then 0.0
    else
      var n := |keys| - 1;
      SumOverGroups(keys[..n], pass, parts, alias, rows, columns, median)
      + if pass(keys[n]) then InnerValue(parts, alias, Group(rows, columns, keys[n]), median) else 0.0
  }

  /** The state that the inner query gives an alias in a group: the values it has seen. */
  function InnerState(parts: seq<InnerPart>, alias: string, rows: seq<Row>): multiset<real> {
    if parts == [] then multiset{}
    else if parts[0].alias == alias then (if parts[0].aggregate.QuantileState? then Values(parts[0].aggregate.column, rows) else multiset{})
    else InnerState(parts[1..], alias, rows)
  }

  /** The states of the groups whose key passes, merged. */
  ghost function StatesOverGroups(keys: seq<Key>, pass: Key -> bool, parts: seq<InnerPart>, alias: string,
                                  rows: seq<Row>, columns: seq<string>): multiset<real> {
    if keys == [] then multiset{}
    else
      var n := |keys| - 1;
      StatesOverGroups(keys[..n], pass, parts, alias, rows, columns)
      + if pass(keys[n]) then InnerState(parts, alias, Group(rows, columns, keys[n])) else multiset{}
  }

  /** `if(bottom > 0, top * scale / bottom, 0)`. */
  function Ratio(top: real, bottom: real, scale: real): real {
    if bottom > 0.0 then top * scale / bottom else 0.0
  }

  ghost function OuterValue(part: OuterPart, keys: seq<Key>, pass: Key -> bool, parts: seq<InnerPart>,
                            rows: seq<Row>, columns: seq<string>, median: Median): real
  {
    match part
    case MedianOf(alias, divisor) =>
      if divisor != 0.0 then median(StatesOverGroups(keys, pass, parts, alias, rows, columns)) / divisor else 0.0
    case SumOf(alias) => SumOverGroups(keys, pass, parts, alias, rows, columns, median)
    case RatioOf(numerator, denominator, scale) =>
      Ratio(SumOverGroups(keys, pass, parts, numerator, rows, columns, median),
            SumOverGroups(keys, pass, parts, denominator, rows, columns, median), scale)
  }

  // ---------------------------------------------------------------- direct meaning

  /** The metrics whose totals the two stages preserve. */
  predicate Additive(m: Metric) {
    m in {Sessions, BounceRate, PageCount, Goals, SumGoalValue, AvgGoalValue, Pageviews, LandingPageCount, ExitPageCount}
  }

  function Count(test: Row -> bool, rows: seq<Row>): real {
    if rows == [] then 0.0 else Count(test, rows[..|rows| - 1]) + if test(rows[|rows| - 1]) then 1.0 else 0.0
  }

  function SumValues(column: string, rows: seq<Row>): real {
    if rows == [] then 0.0
    else SumValues(column, rows[..|rows| - 1]) + if At(rows[|rows| - 1], column).Cell? then At(rows[|rows| - 1], column).number else 0.0
  }

  /** What the metric is of a set of rows, before rounding; a rate of no rows is 0. */
  function Direct(m: Metric, rows: seq<Row>, bounceThreshold: real): real
    requires Additive(m)
  {
    match m
    case Pageviews => Count(r => At(r, "name").Cell? && At(r, "name").text == "screen_view", rows)
    case LandingPageCount => Count(r => At(r, "is_landing").Cell? && At(r, "is_landing").text == "true", rows)
    case ExitPageCount => Count(r => At(r, "is_exit").Cell? && At(r, "is_exit").text == "true", rows)
    case SumGoalValue => SumValues("goal_value", rows)
    case AvgGoalValue => if |rows| > 0 then SumValues("goal_value", rows) / (|rows| as real) else 0.0
    case BounceRate =>
      if |rows| > 0
      then Count(r => At(r, "duration").Cell? && At(r, "duration").number < bounceThreshold * 1000.0, rows) * 100.0 / (|rows| as real)
      else 0.0
    case _ => |rows| as real
  }

  function RowsPassing(rows: seq<Row>, columns: seq<string>, pass: Key -> bool): seq<Row> {
    if rows == [] then []
    else
      var n := |rows| - 1;
      RowsPassing(rows[..n], columns, pass) + if pass(KeyOf(rows[n], columns)) then [rows[n]] else []
  }

  // ---------------------------------------------------------------- grouping and summing commute

  ghost function TotalOverGroups(a: Aggregate, keys: seq<Key>, pass: Key -> bool, rows: seq<Row>, columns: seq<string>): real {
    if keys == [] then 0.0
    else
      var n := |keys| - 1;
      TotalOverGroups(a, keys[..n], pass, rows, columns) + if pass(keys[n]) then Total(a, Group(rows, columns, keys[n])) else 0.0
  }

  lemma TotalAppend(a: Aggregate, rows: seq<Row>, row: Row)
    ensures Total(a, rows + [row]) == Total(a, rows) + Weight(a, row)
  {
    assert (rows + [row])[..|rows|] == rows;
  }

  /** One more row changes one group's total, if its key is among the groups. */
  lemma {:induction false} OneMoreRow(a: Aggregate, keys: seq<Key>, pass: Key -> bool, rows: seq<Row>, row: Row, columns: seq<string>)
    requires forall i, j | 0 <= i < j < |keys| :: keys[i] != keys[j]
    ensures TotalOverGroups(a, keys, pass, rows + [row], columns) ==
            TotalOverGroups(a, keys, pass, rows, columns)
            + if KeyOf(row, columns) in keys && pass(KeyOf(row, columns)) then Weight(a, row) else 0.0
  {
    if keys != [] {
      var n, k := |keys| - 1, keys[|keys| - 1];
      OneMoreRow(a, keys[..n], pass, rows, row, columns);
      assert keys == keys[..n] + [k];
      assert (rows + [row])[..|rows|] == rows;
      if KeyOf(row, columns) == k {
        assert k !in keys[..n];
        TotalAppend(a, Group(rows, columns, k), row);
      } else {
        assert Group(rows + [row], columns, k) == Group(rows, columns, k);
      }
    }
  }

  lemma {:induction false} NoRowsNoTotal(a: Aggregate, keys: seq<Key>, pass: Key -> bool, columns: seq<string>)
    ensures TotalOverGroups(a, keys, pass, [], columns) == 0.0
  {
    if keys != [] {
      NoRowsNoTotal(a, keys[..|keys| - 1], pass, columns);
    }
  }

  /** Summing per group and then over the passing groups is summing over the rows whose group passes. */
  lemma {:induction false} GroupingCommutes(a: Aggregate, keys: seq<Key>, pass: Key -> bool, rows: seq<Row>, columns: seq<string>)
    requires forall i, j | 0 <= i < j < |keys| :: keys[i] != keys[j]
    requires forall r | r in rows :: KeyOf(r, columns) in keys
    ensures TotalOverGroups(a, keys, pass, rows, columns) == Total(a, RowsPassing(rows, columns, pass))
  {
    if rows == [] {
      NoRowsNoTotal(a, keys, pass, columns);
    } else {
      var n := |rows| - 1;
      assert rows == rows[..n] + [rows[n]];
      GroupingCommutes(a, keys, pass, rows[..n], columns);
      OneMoreRow(a, keys, pass, rows[..n], rows[n], columns);
      assert rows[n] in rows;
      if pass(KeyOf(rows[n], columns)) {
        TotalAppend(a, RowsPassing(rows[..n], columns, pass), rows[n]);
      } else {
        assert RowsPassing(rows, columns, pass) == RowsPassing(rows[..n], columns, pass);
      }
    }
  }

  lemma {:induction false} InnerValueOf(parts: seq<InnerPart>, p: InnerPart, rows: seq<Row>, median: Median)
    requires p in parts && forall q | q in parts && q.alias == p.alias :: q == p
    ensures InnerValue(parts, p.alias, rows, median) == Aggregated(p.aggregate, rows, median)
    decreases parts
  {
    if parts[0] != p {
      assert parts[0] in parts;
      assert forall q | q in parts[1..] :: q in parts;
      InnerValueOf(parts[1..], p, rows, median);
    }
  }

  lemma {:induction false} SumOverGroupsIsTotal(keys: seq<Key>, pass: Key -> bool, parts: seq<InnerPart>, p: InnerPart,
                                                rows: seq<Row>, columns: seq<string>, median: Median)
    requires p in parts && IsTotal(p.aggregate) && forall q | q in parts && q.alias == p.alias :: q == p
    ensures SumOverGroups(keys, pass, parts, p.alias, rows, columns, median) == TotalOverGroups(p.aggregate, keys, pass, rows, columns)
  {
    if keys != [] {
      var n := |keys| - 1;
      SumOverGroupsIsTotal(keys[..n], pass, parts, p, rows, columns, median);
      InnerValueOf(parts, p, Group(rows, columns, keys[n]), median);
    }
  }

  /** The inner query of a list of metrics answers each part of each of them. */
  lemma PartIsAnswered(metrics: seq<Metric>, bounceThreshold: real, k: nat, p: InnerPart)
    requires k < |metrics| && p in CompileMetric(metrics[k], bounceThreshold).0
    ensures var parts := Unique(InnerParts(metrics, bounceThreshold));
            p in parts && forall q | q in parts && q.alias == p.alias :: q == p
  {
    var all := InnerParts(metrics, bounceThreshold);
    InnerPartsContain(metrics, bounceThreshold, k);
    UniqueMembers(all);
    forall q | q in Unique(all) && q.alias == p.alias ensures q == p {
      var a, i := InnerPartOrigin(metrics, bounceThreshold, p);
      var b, j := InnerPartOrigin(metrics, bounceThreshold, q);
      AliasesDiffer(a, b, bounceThreshold, i, j);
    }
  }

  lemma {:induction false} CountAllIsLength(rows: seq<Row>)
    ensures Total(CountAll, rows) == |rows| as real
  {
    if rows != [] { CountAllIsLength(rows[..|rows| - 1]); }
  }

  lemma {:induction false} CountWhereIsCount(test: RowTest, f: Row -> bool, rows: seq<Row>)
    requires forall r :: f(r) == Passes(test, r)
    ensures Total(CountWhere(test), rows) == Count(f, rows)
  {
    if rows != [] { CountWhereIsCount(test, f, rows[..|rows| - 1]); }
  }

  lemma {:induction false} SumColumnIsSum(column: string, rows: seq<Row>)
    ensures Total(SumColumn(column), rows) == SumValues(column, rows)
  {
    if rows != [] { SumColumnIsSum(column, rows[..|rows| - 1]); }
  }

  /** The sum of an inner part over the passing groups is its total over the rows whose group passes. */
  lemma PartTotal(metrics: seq<Metric>, k: nat, p: InnerPart, bounceThreshold: real,
                  rows: seq<Row>, columns: seq<string>, keys: seq<Key>, pass: Key -> bool, median: Median)
    requires k < |metrics| && p in CompileMetric(metrics[k], bounceThreshold).0 && IsTotal(p.aggregate)
    requires IsGrouping(keys, rows, columns)
    ensures SumOverGroups(keys, pass, Unique(InnerParts(metrics, bounceThreshold)), p.alias, rows, columns, median)
            == Total(p.aggregate, RowsPassing(rows, columns, pass))
  {
    PartIsAnswered(metrics, bounceThreshold, k, p);
    SumOverGroupsIsTotal(keys, pass, Unique(InnerParts(metrics, bounceThreshold)), p, rows, columns, median);
    GroupingCommutes(p.aggregate, keys, pass, rows, columns);
  }

  /** Two-stage totals preserve meaning: for every count, sum, average goal value, bounce rate and conditional
      count among the requested metrics, the outer column equals the metric computed directly over all rows
      whose group passes HAVING. */
  lemma TotalsPreserveMeaning(metrics: seq<Metric>, k: nat, bounceThreshold: real,
                              rows: seq<Row>, columns: seq<string>, keys: seq<Key>, pass: Key -> bool, median: Median)
    requires k < |metrics| && Additive(metrics[k]) && IsGrouping(keys, rows, columns)
    ensures OuterValue(OuterParts(metrics, bounceThreshold)[k], keys, pass, Unique(InnerParts(metrics, bounceThreshold)), rows, columns, median)
            == Direct(metrics[k], RowsPassing(rows, columns, pass), bounceThreshold)
  {
    var m, kept := metrics[k], RowsPassing(rows, columns, pass);
    var (parts, outer) := CompileMetric(m, bounceThreshold);
    OuterNamesParts(m, bounceThreshold);
    PartTotal(metrics, k, parts[0], bounceThreshold, rows, columns, keys, pass, median);
    if |parts| > 1 {
      PartTotal(metrics, k, parts[1], bounceThreshold, rows, columns, keys, pass, median);
    }
    OuterCombines(parts, outer, Unique(InnerParts(metrics, bounceThreshold)), rows, columns, keys, pass, median);
    AggregatesAreDirect(m, kept, bounceThreshold);
  }

  /** The outer column refers to the inner columns of its own metric. */
  ghost predicate Names(outer: OuterPart, parts: seq<InnerPart>) {
    match outer
    case SumOf(alias) => |parts| == 1 && alias == parts[0].alias
    case RatioOf(numerator, denominator, _) => |parts| == 2 && numerator == parts[0].alias && denominator == parts[1].alias
    case MedianOf(_, _) => false
  }

  lemma OuterNamesParts(m: Metric, bounceThreshold: real)
    requires Additive(m)
    ensures Names(CompileMetric(m, bounceThreshold).1, CompileMetric(m, bounceThreshold).0)
    ensures forall i | 0 <= i < |CompileMetric(m, bounceThreshold).0| :: IsTotal(CompileMetric(m, bounceThreshold).0[i].aggregate)
  {
  }

  /** The outer expression applied to the sums of its columns. */
  ghost function Combine(outer: OuterPart, parts: seq<InnerPart>, rows: seq<Row>): real
    requires Names(outer, parts)
  {
    match outer
    case SumOf(_) => Total(parts[0].aggregate, rows)
    case RatioOf(_, _, scale) =>
      Ratio(Total(parts[0].aggregate, rows), Total(parts[1].aggregate, rows), scale)
  }

  lemma OuterCombines(parts: seq<InnerPart>, outer: OuterPart, inner: seq<InnerPart>,
                      rows: seq<Row>, columns: seq<string>, keys: seq<Key>, pass: Key -> bool, median: Median)
    requires Names(outer, parts)
    requires SumOverGroups(keys, pass, inner, parts[0].alias, rows, columns, median) == Total(parts[0].aggregate, RowsPassing(rows, columns, pass))
    requires |parts| > 1 ==>
               SumOverGroups(keys, pass, inner, parts[1].alias, rows, columns, median) == Total(parts[1].aggregate, RowsPassing(rows, columns, pass))
    ensures OuterValue(outer, keys, pass, inner, rows, columns, median) == Combine(outer, parts, RowsPassing(rows, columns, pass))
  {
  }

  /** The totals of a metric's parts over some rows combine to the metric of those rows. */
  lemma AggregatesAreDirect(m: Metric, rows: seq<Row>, bounceThreshold: real)
    requires Additive(m)
    ensures Names(CompileMetric(m, bounceThreshold).1, CompileMetric(m, bounceThreshold).0)
    ensures Direct(m, rows, bounceThreshold) == Combine(CompileMetric(m, bounceThreshold).1, CompileMetric(m, bounceThreshold).0, rows)
  {
    CountAllIsLength(rows);
    match m {
      case Pageviews =>
        CountWhereIsCount(TextIs("name", "screen_view"), r => At(r, "name").Cell? && At(r, "name").text == "screen_view", rows);
      case LandingPageCount =>
        CountWhereIsCount(TextIs("is_landing", "true"), r => At(r, "is_landing").Cell? && At(r, "is_landing").text == "true", rows);
      case ExitPageCount =>
        CountWhereIsCount(TextIs("is_exit", "true"), r => At(r, "is_exit").Cell? && At(r, "is_exit").text == "true", rows);
      case BounceRate =>
        CountWhereIsCount(LessThan("duration", bounceThreshold * 1000.0),
                          r => At(r, "duration").Cell? && At(r, "duration").number < bounceThreshold * 1000.0, rows);
      case SumGoalValue => SumColumnIsSum("goal_value", rows);
      case AvgGoalValue => SumColumnIsSum("goal_value", rows);
      case _ =>
    }
  }

  // ---------------------------------------------------------------- HAVING

  /** A group passes when it is large enough and the metric filters hold of its metrics. */
  ghost predicate GroupPasses(rows: seq<Row>, minSessions: nat, conditions: seq<Condition>, params: Params, metricEnv: seq<Row> -> Env) {
    && (minSessions > 0 ==> |rows| >= minSessions)
    && EvalAll(conditions, params, metricEnv(rows)) == Some(True)
  }

  /** What HAVING promises: the group is large enough and every metric filter holds of it. */
  ghost predicate GroupSelected(rows: seq<Row>, minSessions: nat, metricFilters: seq<Clause>, metricEnv: seq<Row> -> Env)
    requires AllUsable(metricFilters)
  {
    && (minSessions > 0 ==> |rows| >= minSessions)
    && forall i | 0 <= i < |metricFilters| :: Holds(metricFilters[i], metricEnv(rows)(metricFilters[i].sql))
  }

  ghost predicate AllUsable(clauses: seq<Clause>) {
    forall i | 0 <= i < |clauses| :: HasValues(clauses[i]) && SearchIsPlain(clauses[i])
  }

  function TotalsParams(filters: seq<Clause>, metricFilters: seq<Clause>, dateStart: string, dateEnd: string): Params {
    QueryParams(Scalar(Given(dateStart, None)), Scalar(Given(dateEnd, None)), Compile(filters, "f").params, Compile(metricFilters, "mf").params)
  }

  /** The HAVING clause under the query's merged parameters keeps exactly the groups it promises to keep. */
  lemma HavingMeaning(filters: seq<Clause>, metricFilters: seq<Clause>, dateStart: string, dateEnd: string,
                      rows: seq<Row>, minSessions: nat, metricEnv: seq<Row> -> Env)
    requires AllUsable(metricFilters)
    ensures GroupPasses(rows, minSessions, Compile(metricFilters, "mf").conditions,
                        TotalsParams(filters, metricFilters, dateStart, dateEnd), metricEnv)
            <==> GroupSelected(rows, minSessions, metricFilters, metricEnv)
  {
    QueryParamsDisjoint(Scalar(Given(dateStart, None)), Scalar(Given(dateEnd, None)), filters, metricFilters);
    FilterMeaning(metricFilters, "mf", TotalsParams(filters, metricFilters, dateStart, dateEnd), metricEnv(rows));
  }

  function RowEnv(row: Row): Env {
    sql => At(row, sql)
  }

  /** `toDateTime64(text, 3, 'UTC')`. */
  type ToInstant = string -> real

  /** The date column of the queried table, and how the database reads date texts. */
  datatype Dates = Dates(column: string, toInstant: ToInstant)

  /** The two date conditions under the query's parameters: `date_start` and `date_end` are texts and bound. */
  predicate DateConditions(row: Row, dates: Dates, params: Params) {
    && BoundText(params, "date_start").Some? && BoundText(params, "date_end").Some?
    && At(row, dates.column).Cell?
    && At(row, dates.column).number >= dates.toInstant(BoundText(params, "date_start").value)
    && At(row, dates.column).number <= dates.toInstant(BoundText(params, "date_end").value)
  }

  /** WHERE: the rows that the date conditions and the filter conditions are true of. */
  ghost function Where(rows: seq<Row>, dates: Dates, conditions: seq<Condition>, params: Params): seq<Row> {
    if rows == [] then []
    else
      var n := |rows| - 1;
      Where(rows[..n], dates, conditions, params)
      + if DateConditions(rows[n], dates, params) && EvalAll(conditions, params, RowEnv(rows[n])) == Some(True) then [rows[n]] else []
  }

  lemma {:induction false} WhereMembers(rows: seq<Row>, dates: Dates, conditions: seq<Condition>, params: Params, r: Row)
    ensures r in Where(rows, dates, conditions, params) <==>
            r in rows && DateConditions(r, dates, params) && EvalAll(conditions, params, RowEnv(r)) == Some(True)
  {
    if rows != [] {
      var n := |rows| - 1;
      assert rows == rows[..n] + [rows[n]];
      WhereMembers(rows[..n], dates, conditions, params, r);
    }
  }

  /** What WHERE promises: the row's date lies between the two dates of the query, inclusive, and every filter holds. */
  ghost predicate RowSelected(r: Row, all: seq<Row>, dates: Dates, dateStart: string, dateEnd: string, filters: seq<Clause>)
    requires AllUsable(filters)
  {
    && r in all
    && At(r, dates.column).Cell? && dates.toInstant(dateStart) <= At(r, dates.column).number <= dates.toInstant(dateEnd)
    && forall i | 0 <= i < |filters| :: Holds(filters[i], At(r, filters[i].sql))
  }

  /** WHERE under the merged parameters keeps exactly those rows. */
  lemma WhereMeaning(filters: seq<Clause>, metricFilters: seq<Clause>, dateStart: string, dateEnd: string,
                     all: seq<Row>, dates: Dates, r: Row)
    requires AllUsable(filters)
    ensures r in Where(all, dates, Compile(filters, "f").conditions, TotalsParams(filters, metricFilters, dateStart, dateEnd))
            <==> RowSelected(r, all, dates, dateStart, dateEnd, filters)
  {
    var params := TotalsParams(filters, metricFilters, dateStart, dateEnd);
    QueryParamsDisjoint(Scalar(Given(dateStart, None)), Scalar(Given(dateEnd, None)), filters, metricFilters);
    WhereMembers(all, dates, Compile(filters, "f").conditions, params, r);
    FilterMeaning(filters, "f", params, RowEnv(r));
  }

  /** The whole query. The dates and the filters select the rows they hold of, metric filters select the groups they
      hold of, and each additive outer column is the metric of the selected rows of the selected groups. */
  lemma FilteredTotalsMeaning(all: seq<Row>, dates: Dates, filters: seq<Clause>, metricFilters: seq<Clause>,
                              dateStart: string, dateEnd: string, minSessions: nat, metricEnv: seq<Row> -> Env,
                              metrics: seq<Metric>, j: nat, bounceThreshold: real,
                              columns: seq<string>, keys: seq<Key>, pass: Key -> bool, median: Median, rows: seq<Row>)
    requires AllUsable(filters) && AllUsable(metricFilters)
    requires rows == Where(all, dates, Compile(filters, "f").conditions, TotalsParams(filters, metricFilters, dateStart, dateEnd))
    requires IsGrouping(keys, rows, columns)
    requires forall k :: pass(k) == GroupPasses(Group(rows, columns, k), minSessions, Compile(metricFilters, "mf").conditions,
                                                TotalsParams(filters, metricFilters, dateStart, dateEnd), metricEnv)
    requires j < |metrics| && Additive(metrics[j])
    ensures forall r :: r in rows <==> RowSelected(r, all, dates, dateStart, dateEnd, filters)
    ensures forall k :: pass(k) == GroupSelected(Group(rows, columns, k), minSessions, metricFilters, metricEnv)
    ensures OuterValue(OuterParts(metrics, bounceThreshold)[j], keys, pass, Unique(InnerParts(metrics, bounceThreshold)),
                       rows, columns, median)
            == Direct(metrics[j], RowsPassing(rows, columns, pass), bounceThreshold)
  {
    forall r ensures r in rows <==> RowSelected(r, all, dates, dateStart, dateEnd, filters) {
      WhereMeaning(filters, metricFilters, dateStart, dateEnd, all, dates, r);
    }
    forall k ensures pass(k) == GroupSelected(Group(rows, columns, k), minSessions, metricFilters, metricEnv) {
      HavingMeaning(filters, metricFilters, dateStart, dateEnd, Group(rows, columns, k), minSessions, metricEnv);
    }
    TotalsPreserveMeaning(metrics, j, bounceThreshold, rows, columns, keys, pass, median);
  }

  // ---------------------------------------------------------------- what the default branch does not preserve

  /** The sum of a value of each group that passes. */
  ghost function SumPassing(keys: seq<Key>, pass: Key -> bool, value: Key -> real): real {
    if keys == [] then 0.0
    else
      var n := |keys| - 1;
      SumPassing(keys[..n], pass, value) + if pass(keys[n]) then value(keys[n]) else 0.0
  }

  /** How many groups pass. */
  function PassingCount(keys: seq<Key>, pass: Key -> bool): nat {
    if keys == [] then 0 else PassingCount(keys[..|keys| - 1], pass) + if pass(keys[|keys| - 1]) then 1 else 0
  }

  /** No row counts negatively; nor do the columns, which are unsigned. */
  ghost predicate NonNegative(of: Aggregate, rows: seq<Row>) {
    forall r | r in rows :: Weight(of, r) >= 0.0
  }

  lemma {:induction false} SumOverGroupsIsSum(keys: seq<Key>, pass: Key -> bool, parts: seq<InnerPart>, p: InnerPart,
                                              rows: seq<Row>, columns: seq<string>, median: Median, value: Key -> real)
    requires p in parts && forall q | q in parts && q.alias == p.alias :: q == p
    requires forall k :: value(k) == Aggregated(p.aggregate, Group(rows, columns, k), median)
    ensures SumOverGroups(keys, pass, parts, p.alias, rows, columns, median) == SumPassing(keys, pass, value)
  {
    if keys != [] {
      var n := |keys| - 1;
      SumOverGroupsIsSum(keys[..n], pass, parts, p, rows, columns, median, value);
      InnerValueOf(parts, p, Group(rows, columns, keys[n]), median);
    }
  }

  lemma {:induction false} TotalOverGroupsIsSum(of: Aggregate, keys: seq<Key>, pass: Key -> bool, rows: seq<Row>, columns: seq<string>,
                                                total: Key -> real)
    requires forall k :: total(k) == Total(of, Group(rows, columns, k))
    ensures TotalOverGroups(of, keys, pass, rows, columns) == SumPassing(keys, pass, total)
  {
    if keys != [] {
      TotalOverGroupsIsSum(of, keys[..|keys| - 1], pass, rows, columns, total);
    }
  }

  lemma {:induction false} TotalNonNegative(of: Aggregate, rows: seq<Row>)
    requires NonNegative(of, rows)
    ensures Total(of, rows) >= 0.0
    ensures Total(of, rows) == 0.0 <==> forall r | r in rows :: Weight(of, r) == 0.0
  {
    if rows != [] {
      var n := |rows| - 1;
      assert rows == rows[..n] + [rows[n]];
      assert rows[n] in rows && forall r | r in rows[..n] :: r in rows;
      TotalNonNegative(of, rows[..n]);
    }
  }

  lemma {:induction false} GroupMembers(rows: seq<Row>, columns: seq<string>, k: Key)
    ensures forall r | r in Group(rows, columns, k) :: r in rows
  {
    if rows != [] {
      GroupMembers(rows[..|rows| - 1], columns, k);
      assert forall r | r in rows[..|rows| - 1] :: r in rows;
    }
  }

  lemma {:induction false} PassingMembers(rows: seq<Row>, columns: seq<string>, pass: Key -> bool)
    ensures forall r | r in RowsPassing(rows, columns, pass) :: r in rows
  {
    if rows != [] {
      PassingMembers(rows[..|rows| - 1], columns, pass);
      assert forall r | r in rows[..|rows| - 1] :: r in rows;
    }
  }

  /** A non-negative total, and an average that is at least the total's share: equal to it only if both are 0. */
  predicate AboveShare(average: real, total: real, share: real) {
    total >= 0.0 && average >= total * share && (average == total * share <==> total == 0.0)
  }

  lemma AddAboveShare(a: real, t: real, b: real, u: real, share: real)
    requires AboveShare(a, t, share) && AboveShare(b, u, share)
    ensures AboveShare(a + b, t + u, share)
  {
    assert (t + u) * share == t * share + u * share;
  }

  lemma {:induction false} SumsAboveShare(keys: seq<Key>, pass: Key -> bool, average: Key -> real, total: Key -> real, share: real)
    requires forall k | k in keys && pass(k) :: AboveShare(average(k), total(k), share)
    ensures AboveShare(SumPassing(keys, pass, average), SumPassing(keys, pass, total), share)
  {
    if keys == [] {
      assert 0.0 * share == 0.0;
    } else {
      var n := |keys| - 1;
      assert keys == keys[..n] + [keys[n]];
      SumsAboveShare(keys[..n], pass, average, total, share);
      if pass(keys[n]) {
        AddAboveShare(SumPassing(keys[..n], pass, average), SumPassing(keys[..n], pass, total),
                      average(keys[n]), total(keys[n]), share);
      }
    }
  }

  /** Fewer rows than all make an average larger than the share of all. */
  lemma SmallerDivisor(total: real, scale: real, n: real, all: real)
    requires total >= 0.0 && scale > 0.0 && 0.0 < n < all
    ensures AboveShare(Ratio(total, n, scale), total, scale / all)
  {
    var s, x, share := total * scale, total * scale / n, scale / all;
    assert s == x * n && total * share * all == s;
    if total > 0.0 {
      assert s > 0.0;
      assert x > 0.0;
      assert x * all > x * n;
      if x <= total * share {
        assert x * all <= total * share * all;
      }
    } else {
      assert s == 0.0;
      assert 0.0 * share == 0.0;
    }
  }

  /** Every passing group leaves at least one row to each other passing group. */
  lemma {:induction false} RowsOfOthers(keys: seq<Key>, pass: Key -> bool, rows: seq<Row>, columns: seq<string>, k: Key)
    requires forall q | q in keys :: Group(rows, columns, q) != []
    ensures TotalOverGroups(CountAll, keys, pass, rows, columns) >= PassingCount(keys, pass) as real
    ensures k in keys && pass(k) ==>
              TotalOverGroups(CountAll, keys, pass, rows, columns) >= |Group(rows, columns, k)| as real + (PassingCount(keys, pass) - 1) as real
  {
    if keys != [] {
      var n := |keys| - 1;
      assert keys == keys[..n] + [keys[n]];
      RowsOfOthers(keys[..n], pass, rows, columns, k);
      CountAllIsLength(Group(rows, columns, keys[n]));
      assert keys[n] in keys;
    }
  }

  lemma {:induction false} NonePasses(keys: seq<Key>, pass: Key -> bool, value: Key -> real)
    requires PassingCount(keys, pass) == 0
    ensures SumPassing(keys, pass, value) == 0.0
  {
    if keys != [] {
      NonePasses(keys[..|keys| - 1], pass, value);
    }
  }

  lemma {:induction false} OnePasses(keys: seq<Key>, pass: Key -> bool, f: Key -> real, g: Key -> real, h: Key -> real) returns (k: Key)
    requires PassingCount(keys, pass) == 1
    ensures k in keys
    ensures SumPassing(keys, pass, f) == f(k) && SumPassing(keys, pass, g) == g(k) && SumPassing(keys, pass, h) == h(k)
  {
    var n := |keys| - 1;
    if pass(keys[n]) {
      k := keys[n];
      NonePasses(keys[..n], pass, f);
      NonePasses(keys[..n], pass, g);
      NonePasses(keys[..n], pass, h);
    } else {
      k := OnePasses(keys[..n], pass, f, g, h);
    }
  }

  /** The total and the number of the rows whose group passes, told by groups. */
  lemma PassingSums(of: Aggregate, keys: seq<Key>, pass: Key -> bool, rows: seq<Row>, columns: seq<string>,
                    total: Key -> real, size: Key -> real)
    requires IsGrouping(keys, rows, columns)
    requires forall k :: total(k) == Total(of, Group(rows, columns, k))
    requires forall k :: size(k) == Total(CountAll, Group(rows, columns, k))
    ensures SumPassing(keys, pass, total) == Total(of, RowsPassing(rows, columns, pass))
    ensures SumPassing(keys, pass, size) == |RowsPassing(rows, columns, pass)| as real
  {
    GroupingCommutes(of, keys, pass, rows, columns);
    GroupingCommutes(CountAll, keys, pass, rows, columns);
    CountAllIsLength(RowsPassing(rows, columns, pass));
    TotalOverGroupsIsSum(of, keys, pass, rows, columns, total);
    TotalOverGroupsIsSum(CountAll, keys, pass, rows, columns, size);
  }

  /** With at most one passing group there is one average to sum. */
  lemma OneAverage(of: Aggregate, scale: real, keys: seq<Key>, pass: Key -> bool, rows: seq<Row>, columns: seq<string>, average: Key -> real)
    requires IsGrouping(keys, rows, columns) && PassingCount(keys, pass) <= 1
    requires forall k :: average(k) == Average(of, scale, Group(rows, columns, k))
    ensures SumPassing(keys, pass, average) == Average(of, scale, RowsPassing(rows, columns, pass))
  {
    var total := (k: Key) => Total(of, Group(rows, columns, k));
    var size := (k: Key) => Total(CountAll, Group(rows, columns, k));
    PassingSums(of, keys, pass, rows, columns, total, size);
    if PassingCount(keys, pass) == 0 {
      NonePasses(keys, pass, average);
      NonePasses(keys, pass, size);
    } else {
      var k := OnePasses(keys, pass, average, total, size);
      CountAllIsLength(Group(rows, columns, k));
    }
  }

  lemma GroupAboveShare(of: Aggregate, scale: real, group: seq<Row>, all: real)
    requires scale > 0.0 && NonNegative(of, group) && group != [] && |group| as real < all
    ensures AboveShare(Average(of, scale, group), Total(of, group), scale / all)
  {
    TotalNonNegative(of, group);
    SmallerDivisor(Total(of, group), scale, |group| as real, all);
  }

  /** With several passing groups every average is above its group's share. */
  lemma ManyAverages(of: Aggregate, scale: real, keys: seq<Key>, pass: Key -> bool, rows: seq<Row>, columns: seq<string>, average: Key -> real)
    requires IsGrouping(keys, rows, columns) && scale > 0.0 && NonNegative(of, rows) && PassingCount(keys, pass) > 1
    requires forall k :: average(k) == Average(of, scale, Group(rows, columns, k))
    ensures |RowsPassing(rows, columns, pass)| > 0
    ensures AboveShare(SumPassing(keys, pass, average), Total(of, RowsPassing(rows, columns, pass)),
                       scale / |RowsPassing(rows, columns, pass)| as real)
  {
    var total := (k: Key) => Total(of, Group(rows, columns, k));
    var size := (k: Key) => Total(CountAll, Group(rows, columns, k));
    PassingSums(of, keys, pass, rows, columns, total, size);
    TotalOverGroupsIsSum(CountAll, keys, pass, rows, columns, size);
    RowsOfOthers(keys, pass, rows, columns, []);
    var all := |RowsPassing(rows, columns, pass)| as real;
    forall k | k in keys && pass(k) ensures AboveShare(average(k), total(k), scale / all) {
      RowsOfOthers(keys, pass, rows, columns, k);
      GroupMembers(rows, columns, k);
      GroupAboveShare(of, scale, Group(rows, columns, k), all);
    }
    SumsAboveShare(keys, pass, average, total, scale / all);
  }

  lemma ShareReached(sum: real, total: real, scale: real, n: real)
    requires n > 0.0 && AboveShare(sum, total, scale / n)
    ensures sum == Ratio(total, n, scale) <==> total == 0.0
  {
    assert total * scale / n == total * (scale / n);
  }

  lemma SumOfAveragesIff(of: Aggregate, scale: real, keys: seq<Key>, pass: Key -> bool, rows: seq<Row>, columns: seq<string>,
                         average: Key -> real)
    requires IsGrouping(keys, rows, columns) && scale > 0.0 && NonNegative(of, rows)
    requires forall k :: average(k) == Average(of, scale, Group(rows, columns, k))
    ensures SumPassing(keys, pass, average) == Average(of, scale, RowsPassing(rows, columns, pass)) <==>
            PassingCount(keys, pass) <= 1 || forall r | r in RowsPassing(rows, columns, pass) :: Weight(of, r) == 0.0
  {
    var passing := RowsPassing(rows, columns, pass);
    if PassingCount(keys, pass) <= 1 {
      OneAverage(of, scale, keys, pass, rows, columns, average);
    } else {
      ManyAverages(of, scale, keys, pass, rows, columns, average);
      PassingMembers(rows, columns, pass);
      TotalNonNegative(of, passing);
      ShareReached(SumPassing(keys, pass, average), Total(of, passing), scale, |passing| as real);
    }
  }

  /** The metrics of the default branch that are averages or rates. */
  predicate Averaged(m: Metric) {
    m == MaxScroll || m == PagesPerSession || m == ExitRate
  }

  /** What they are of a set of rows, before rounding. */
  function DirectAverage(m: Metric, rows: seq<Row>): real
    requires Averaged(m)
  {
    if rows == [] then 0.0
    else if m == MaxScroll then SumValues("max_scroll", rows) / (|rows| as real)
    else if m == PagesPerSession then SumValues("pageview_count", rows) / (|rows| as real)
    else Count(r => At(r, "is_exit").Cell? && At(r, "is_exit").text == "true", rows) * 100.0 / (|rows| as real)
  }

  /** The row adds nothing to that average: it has not been scrolled, has no pageview, or is no exit. */
  predicate AddsNothing(m: Metric, r: Row)
    requires Averaged(m)
  {
    if m == MaxScroll then At(r, "max_scroll").Cell? ==> At(r, "max_scroll").number == 0.0
    else if m == PagesPerSession then At(r, "pageview_count").Cell? ==> At(r, "pageview_count").number == 0.0
    else !(At(r, "is_exit").Cell? && At(r, "is_exit").text == "true")
  }

  /** Both columns are unsigned. */
  ghost predicate UnsignedColumns(rows: seq<Row>) {
    forall r | r in rows ::
      && (At(r, "max_scroll").Cell? ==> At(r, "max_scroll").number >= 0.0)
      && (At(r, "pageview_count").Cell? ==> At(r, "pageview_count").number >= 0.0)
  }

  lemma OneColumn(metrics: seq<Metric>, j: nat, p: InnerPart, bounceThreshold: real, rows: seq<Row>, columns: seq<string>,
                  keys: seq<Key>, pass: Key -> bool, median: Median, value: Key -> real)
    requires j < |metrics| && CompileMetric(metrics[j], bounceThreshold) == ([p], SumOf(p.alias))
    requires forall k :: value(k) == Aggregated(p.aggregate, Group(rows, columns, k), median)
    ensures OuterValue(OuterParts(metrics, bounceThreshold)[j], keys, pass, Unique(InnerParts(metrics, bounceThreshold)),
                       rows, columns, median)
            == SumPassing(keys, pass, value)
  {
    PartIsAnswered(metrics, bounceThreshold, j, p);
    SumOverGroupsIsSum(keys, pass, Unique(InnerParts(metrics, bounceThreshold)), p, rows, columns, median, value);
  }

  lemma AveragedParts(m: Metric, bounceThreshold: real)
    requires Averaged(m)
    ensures DefaultAggregate(m).AverageOf? && DefaultAggregate(m).scale > 0.0
    ensures CompileMetric(m, bounceThreshold) == ([InnerPart(DefaultAggregate(m), "_" + Name(m))], SumOf("_" + Name(m)))
    ensures forall r :: Weight(DefaultAggregate(m).of, r) == 0.0 <==> AddsNothing(m, r)
  {
  }

  lemma UnsignedCounts(m: Metric, rows: seq<Row>)
    requires Averaged(m) && UnsignedColumns(rows)
    ensures NonNegative(DefaultAggregate(m).of, rows)
  {
  }

  lemma AverageIsDirect(m: Metric, rows: seq<Row>)
    requires Averaged(m)
    ensures Average(DefaultAggregate(m).of, DefaultAggregate(m).scale, rows) == DirectAverage(m, rows)
  {
    SumColumnIsSum("max_scroll", rows);
    SumColumnIsSum("pageview_count", rows);
    CountWhereIsCount(TextIs("is_exit", "true"), r => At(r, "is_exit").Cell? && At(r, "is_exit").text == "true", rows);
  }

  /** The averages and rates of the default branch are summed over the groups too. That sum is the average scroll depth,
      the pages per session or the exit rate of all rows whose group passes if and only if at most one group passes or
      none of those rows adds anything to it. */
  lemma AveragesAddIff(metrics: seq<Metric>, j: nat, bounceThreshold: real,
                       rows: seq<Row>, columns: seq<string>, keys: seq<Key>, pass: Key -> bool, median: Median)
    requires j < |metrics| && Averaged(metrics[j]) && IsGrouping(keys, rows, columns) && UnsignedColumns(rows)
    ensures OuterValue(OuterParts(metrics, bounceThreshold)[j], keys, pass, Unique(InnerParts(metrics, bounceThreshold)),
                       rows, columns, median)
            == DirectAverage(metrics[j], RowsPassing(rows, columns, pass))
            <==> PassingCount(keys, pass) <= 1 || forall r | r in RowsPassing(rows, columns, pass) :: AddsNothing(metrics[j], r)
  {
    var m := metrics[j];
    AveragedParts(m, bounceThreshold);
    UnsignedCounts(m, rows);
    var a := DefaultAggregate(m);
    AverageIsDirect(m, RowsPassing(rows, columns, pass));
    AveragesAdd(metrics, j, a, bounceThreshold, rows, columns, keys, pass, median);
  }

  lemma AveragesAdd(metrics: seq<Metric>, j: nat, a: Aggregate, bounceThreshold: real,
                    rows: seq<Row>, columns: seq<string>, keys: seq<Key>, pass: Key -> bool, median: Median)
    requires j < |metrics| && a.AverageOf? && a.scale > 0.0 && IsGrouping(keys, rows, columns) && NonNegative(a.of, rows)
    requires CompileMetric(metrics[j], bounceThreshold) == ([InnerPart(a, "_" + Name(metrics[j]))], SumOf("_" + Name(metrics[j])))
    ensures OuterValue(OuterParts(metrics, bounceThreshold)[j], keys, pass, Unique(InnerParts(metrics, bounceThreshold)),
                       rows, columns, median)
            == Average(a.of, a.scale, RowsPassing(rows, columns, pass))
            <==> PassingCount(keys, pass) <= 1 || forall r | r in RowsPassing(rows, columns, pass) :: Weight(a.of, r) == 0.0
  {
    var average := (k: Key) => Average(a.of, a.scale, Group(rows, columns, k));
    OneColumn(metrics, j, InnerPart(a, "_" + Name(metrics[j])), bounceThreshold, rows, columns, keys, pass, median, average);
    SumOfAveragesIff(a.of, a.scale, keys, pass, rows, columns, average);
  }

  // ---------------------------------------------------------------- medians

  ghost function ValuesOverGroups(column: string, keys: seq<Key>, pass: Key -> bool, rows: seq<Row>, columns: seq<string>): multiset<real> {
    if keys == [] then multiset{}
    else
      var n := |keys| - 1;
      ValuesOverGroups(column, keys[..n], pass, rows, columns)
      + if pass(keys[n]) then Values(column, Group(rows, columns, keys[n])) else multiset{}
  }

  lemma {:induction false} InnerStateOf(parts: seq<InnerPart>, p: InnerPart, rows: seq<Row>)
    requires p in parts && p.aggregate.QuantileState? && forall q | q in parts && q.alias == p.alias :: q == p
    ensures InnerState(parts, p.alias, rows) == Values(p.aggregate.column, rows)
    decreases parts
  {
    if parts[0] != p {
      assert parts[0] in parts;
      assert forall q | q in parts[1..] :: q in parts;
      InnerStateOf(parts[1..], p, rows);
    }
  }

  lemma {:induction false} StatesAreValues(keys: seq<Key>, pass: Key -> bool, parts: seq<InnerPart>, p: InnerPart,
                                           rows: seq<Row>, columns: seq<string>)
    requires p in parts && p.aggregate.QuantileState? && forall q | q in parts && q.alias == p.alias :: q == p
    ensures StatesOverGroups(keys, pass, parts, p.alias, rows, columns) == ValuesOverGroups(p.aggregate.column, keys, pass, rows, columns)
  {
    if keys != [] {
      var n := |keys| - 1;
      StatesAreValues(keys[..n], pass, parts, p, rows, columns);
      InnerStateOf(parts, p, Group(rows, columns, keys[n]));
    }
  }

  function ValueOf(column: string, row: Row): multiset<real> {
    if At(row, column).Cell? then multiset{At(row, column).number} else multiset{}
  }

  lemma ValuesAppend(column: string, rows: seq<Row>, row: Row)
    ensures Values(column, rows + [row]) == Values(column, rows) + ValueOf(column, row)
  {
    assert (rows + [row])[..|rows|] == rows;
  }

  lemma Regroup(a: multiset<real>, b: multiset<real>, c: multiset<real>, d: multiset<real>)
    ensures (a + b) + (c + d) == (a + c) + (b + d)
  {
  }

  lemma GroupAfterRow(rows: seq<Row>, row: Row, columns: seq<string>, k: Key)
    ensures Group(rows + [row], columns, k) == Group(rows, columns, k) + if KeyOf(row, columns) == k then [row] else []
  {
    assert (rows + [row])[..|rows|] == rows;
  }

  /** What one more row adds to the values of one group. */
  lemma OneMoreInGroup(column: string, rows: seq<Row>, row: Row, columns: seq<string>, k: Key)
    ensures Values(column, Group(rows + [row], columns, k))
            == Values(column, Group(rows, columns, k)) + if KeyOf(row, columns) == k then ValueOf(column, row) else multiset{}
  {
    GroupAfterRow(rows, row, columns, k);
    if KeyOf(row, columns) == k {
      ValuesAppend(column, Group(rows, columns, k), row);
    } else {
      assert Group(rows + [row], columns, k) == Group(rows, columns, k);
    }
  }

  /** What a row adds to the values of these groups. */
  function AddedValue(column: string, keys: seq<Key>, pass: Key -> bool, row: Row, columns: seq<string>): multiset<real> {
    if KeyOf(row, columns) in keys && pass(KeyOf(row, columns)) then ValueOf(column, row) else multiset{}
  }

  lemma AddedWithLast(column: string, keys: seq<Key>, pass: Key -> bool, row: Row, columns: seq<string>)
    requires keys != [] && forall i, j | 0 <= i < j < |keys| :: keys[i] != keys[j]
    ensures var n := |keys| - 1;
            AddedValue(column, keys, pass, row, columns)
            == AddedValue(column, keys[..n], pass, row, columns) + AddedValue(column, [keys[n]], pass, row, columns)
  {
    var n := |keys| - 1;
    assert keys == keys[..n] + [keys[n]];
    assert keys[n] !in keys[..n];
  }

  lemma OneMoreInLast(column: string, pass: Key -> bool, rows: seq<Row>, row: Row, columns: seq<string>, k: Key)
    ensures (if pass(k) then Values(column, Group(rows + [row], columns, k)) else multiset{})
            == (if pass(k) then Values(column, Group(rows, columns, k)) else multiset{}) + AddedValue(column, [k], pass, row, columns)
  {
    OneMoreInGroup(column, rows, row, columns, k);
  }

  lemma {:induction false} OneMoreValue(column: string, keys: seq<Key>, pass: Key -> bool, rows: seq<Row>, row: Row, columns: seq<string>)
    requires forall i, j | 0 <= i < j < |keys| :: keys[i] != keys[j]
    ensures ValuesOverGroups(column, keys, pass, rows + [row], columns)
            == ValuesOverGroups(column, keys, pass, rows, columns) + AddedValue(column, keys, pass, row, columns)
  {
    if keys != [] {
      var n, k := |keys| - 1, keys[|keys| - 1];
      OneMoreValue(column, keys[..n], pass, rows, row, columns);
      var b, x := ValuesOverGroups(column, keys[..n], pass, rows, columns), AddedValue(column, keys[..n], pass, row, columns);
      var c, y := if pass(k) then Values(column, Group(rows, columns, k)) else multiset{}, AddedValue(column, [k], pass, row, columns);
      calc {
        ValuesOverGroups(column, keys, pass, rows + [row], columns);
        { OneMoreInLast(column, pass, rows, row, columns, k); }
        (b + x) + (c + y);
        { Regroup(b, x, c, y); }
        (b + c) + (x + y);
        { AddedWithLast(column, keys, pass, row, columns); }
        ValuesOverGroups(column, keys, pass, rows, columns) + AddedValue(column, keys, pass, row, columns);
      }
    }
  }

  lemma {:induction false} NoRowsNoValues(column: string, keys: seq<Key>, pass: Key -> bool, columns: seq<string>)
    ensures ValuesOverGroups(column, keys, pass, [], columns) == multiset{}
  {
    if keys != [] {
      NoRowsNoValues(column, keys[..|keys| - 1], pass, columns);
    }
  }

  /** The values of the passing groups, merged, are those of the rows whose group passes. */
  lemma {:induction false} MergingCommutes(column: string, keys: seq<Key>, pass: Key -> bool, rows: seq<Row>, columns: seq<string>)
    requires forall i, j | 0 <= i < j < |keys| :: keys[i] != keys[j]
    requires forall r | r in rows :: KeyOf(r, columns) in keys
    ensures ValuesOverGroups(column, keys, pass, rows, columns) == Values(column, RowsPassing(rows, columns, pass))
  {
    if rows == [] {
      NoRowsNoValues(column, keys, pass, columns);
    } else {
      var n := |rows| - 1;
      assert rows == rows[..n] + [rows[n]];
      MergingCommutes(column, keys, pass, rows[..n], columns);
      OneMoreValue(column, keys, pass, rows[..n], rows[n], columns);
      assert rows[n] in rows;
      if pass(KeyOf(rows[n], columns)) {
        ValuesAppend(column, RowsPassing(rows[..n], columns, pass), rows[n]);
      } else {
        assert RowsPassing(rows, columns, pass) == RowsPassing(rows[..n], columns, pass);
      }
    }
  }

  /** Medians survive the two stages: merging the states of the groups gives the median duration in seconds, or the median
      scroll depth, of all rows whose group passes. */
  lemma MediansPreserveMeaning(metrics: seq<Metric>, j: nat, bounceThreshold: real,
                               rows: seq<Row>, columns: seq<string>, keys: seq<Key>, pass: Key -> bool, median: Median)
    requires j < |metrics| && (metrics[j] == MedianDuration || metrics[j] == MedianScroll) && IsGrouping(keys, rows, columns)
    ensures OuterValue(OuterParts(metrics, bounceThreshold)[j], keys, pass, Unique(InnerParts(metrics, bounceThreshold)),
                       rows, columns, median)
            == if metrics[j] == MedianDuration then median(Values("duration", RowsPassing(rows, columns, pass))) / 1000.0
               else median(Values("max_scroll", RowsPassing(rows, columns, pass)))
  {
    var p := CompileMetric(metrics[j], bounceThreshold).0[0];
    PartIsAnswered(metrics, bounceThreshold, j, p);
    StatesAreValues(keys, pass, Unique(InnerParts(metrics, bounceThreshold)), p, rows, columns);
    MergingCommutes(p.aggregate.column, keys, pass, rows, columns);
  }

  /** The medians of the default branch are not merged but added: the total is the sum of the groups' medians. */
  lemma OtherMediansAreAdded(metrics: seq<Metric>, j: nat, bounceThreshold: real, rows: seq<Row>, columns: seq<string>,
                             keys: seq<Key>, pass: Key -> bool, median: Median, groupMedian: Key -> real)
    requires j < |metrics| && metrics[j] in {MedianPageDuration, PageDuration, PageScroll, MedianGoalValue}
    requires forall k :: groupMedian(k) ==
               var group := Group(rows, columns, k);
               if metrics[j] == MedianPageDuration then median(Values("median_page_duration", group)) / 1000.0
               else if metrics[j] == PageDuration then median(Values("duration", group)) / 1000.0
               else if metrics[j] == PageScroll then median(Values("max_scroll", group))
               else median(Values("goal_value", group))
    ensures OuterValue(OuterParts(metrics, bounceThreshold)[j], keys, pass, Unique(InnerParts(metrics, bounceThreshold)),
                       rows, columns, median)
            == SumPassing(keys, pass, groupMedian)
  {
    OneColumn(metrics, j, CompileMetric(metrics[j], bounceThreshold).0[0], bounceThreshold, rows, columns, keys, pass, median, groupMedian);
  }

  // ---------------------------------------------------------------- numbers of different values

  /** The different values of the passing groups. */
  ghost function DistinctOverGroups(column: string, keys: seq<Key>, pass: Key -> bool, rows: seq<Row>, columns: seq<string>): set<string> {
    set k, t | k in keys && pass(k) && t in Distinct(column, Group(rows, columns, k)) :: t
  }

  /** No value occurs in two groups that pass. */
  ghost predicate NoSharedValue(column: string, keys: seq<Key>, pass: Key -> bool, rows: seq<Row>, columns: seq<string>) {
    forall i, j | 0 <= i < j < |keys| && pass(keys[i]) && pass(keys[j]) ::
      Distinct(column, Group(rows, columns, keys[i])) !! Distinct(column, Group(rows, columns, keys[j]))
  }

  lemma UnionSize(a: set<string>, b: set<string>)
    ensures |a + b| <= |a| + |b|
    ensures |a + b| == |a| + |b| <==> a !! b
  {
    assert |a + b| == |a| + |b| - |a * b|;
  }

  lemma SizesAdd(sum: real, before: set<string>, last: set<string>)
    requires sum >= |before| as real
    ensures sum + |last| as real >= |before + last| as real
    ensures sum + |last| as real == |before + last| as real <==> sum == |before| as real && before !! last
  {
    UnionSize(before, last);
    assert (|before| + |last|) as real == |before| as real + |last| as real;
  }

  lemma DistinctWithLast(column: string, keys: seq<Key>, pass: Key -> bool, rows: seq<Row>, columns: seq<string>)
    requires keys != []
    ensures var n := |keys| - 1;
            DistinctOverGroups(column, keys, pass, rows, columns)
            == DistinctOverGroups(column, keys[..n], pass, rows, columns)
               + if pass(keys[n]) then Distinct(column, Group(rows, columns, keys[n])) else {}
  {
    var n := |keys| - 1;
    assert keys == keys[..n] + [keys[n]];
  }

  lemma {:induction false} SumOfSizes(column: string, keys: seq<Key>, pass: Key -> bool, rows: seq<Row>, columns: seq<string>, size: Key -> real)
    requires forall k :: size(k) == |Distinct(column, Group(rows, columns, k))| as real
    ensures SumPassing(keys, pass, size) >= |DistinctOverGroups(column, keys, pass, rows, columns)| as real
    ensures SumPassing(keys, pass, size) == |DistinctOverGroups(column, keys, pass, rows, columns)| as real
            <==> NoSharedValue(column, keys, pass, rows, columns)
  {
    if keys == [] {
      assert DistinctOverGroups(column, keys, pass, rows, columns) == {};
    } else {
      var n := |keys| - 1;
      SumOfSizes(column, keys[..n], pass, rows, columns, size);
      DistinctWithLast(column, keys, pass, rows, columns);
      if pass(keys[n]) {
        SizesAdd(SumPassing(keys[..n], pass, size), DistinctOverGroups(column, keys[..n], pass, rows, columns),
                 Distinct(column, Group(rows, columns, keys[n])));
        SharedWithLast(column, keys, pass, rows, columns);
      } else {
        NotSharedWithLast(column, keys, pass, rows, columns);
      }
    }
  }

  lemma NotSharedWithLast(column: string, keys: seq<Key>, pass: Key -> bool, rows: seq<Row>, columns: seq<string>)
    requires keys != [] && !pass(keys[|keys| - 1])
    ensures NoSharedValue(column, keys, pass, rows, columns) <==> NoSharedValue(column, keys[..|keys| - 1], pass, rows, columns)
  {
    var n := |keys| - 1;
    assert forall i | 0 <= i < n :: keys[..n][i] == keys[i];
    if NoSharedValue(column, keys, pass, rows, columns) {
      forall i, j | 0 <= i < j < n && pass(keys[..n][i]) && pass(keys[..n][j])
        ensures Distinct(column, Group(rows, columns, keys[..n][i])) !! Distinct(column, Group(rows, columns, keys[..n][j]))
      {
        assert Distinct(column, Group(rows, columns, keys[i])) !! Distinct(column, Group(rows, columns, keys[j]));
      }
    }
  }

  lemma SharedWithLast(column: string, keys: seq<Key>, pass: Key -> bool, rows: seq<Row>, columns: seq<string>)
    requires keys != [] && pass(keys[|keys| - 1])
    ensures var n := |keys| - 1;
            NoSharedValue(column, keys, pass, rows, columns) <==>
            && NoSharedValue(column, keys[..n], pass, rows, columns)
            && DistinctOverGroups(column, keys[..n], pass, rows, columns) !! Distinct(column, Group(rows, columns, keys[n]))
  {
    var n := |keys| - 1;
    var before, last := DistinctOverGroups(column, keys[..n], pass, rows, columns), Distinct(column, Group(rows, columns, keys[n]));
    if before !! last {
      forall i | 0 <= i < n && pass(keys[i]) ensures Distinct(column, Group(rows, columns, keys[i])) !! last {
        assert keys[i] in keys[..n];
        assert Distinct(column, Group(rows, columns, keys[i])) <= before;
      }
    }
    if NoSharedValue(column, keys, pass, rows, columns) {
      forall t | t in before ensures t !in last {
        var k :| k in keys[..n] && pass(k) && t in Distinct(column, Group(rows, columns, k));
        var i :| 0 <= i < n && keys[i] == k;
        assert Distinct(column, Group(rows, columns, keys[i])) !! Distinct(column, Group(rows, columns, keys[n]));
      }
      assert forall i, j | 0 <= i < j < n :: keys[..n][i] == keys[i] && keys[..n][j] == keys[j];
    }
  }

  lemma {:induction false} InGroup(rows: seq<Row>, columns: seq<string>, k: Key, r: Row)
    ensures r in Group(rows, columns, k) <==> r in rows && KeyOf(r, columns) == k
  {
    if rows != [] {
      var n := |rows| - 1;
      assert rows == rows[..n] + [rows[n]];
      InGroup(rows[..n], columns, k, r);
    }
  }

  lemma {:induction false} InPassing(rows: seq<Row>, columns: seq<string>, pass: Key -> bool, r: Row)
    ensures r in RowsPassing(rows, columns, pass) <==> r in rows && pass(KeyOf(r, columns))
  {
    if rows != [] {
      var n := |rows| - 1;
      assert rows == rows[..n] + [rows[n]];
      InPassing(rows[..n], columns, pass, r);
    }
  }

  lemma DistinctOfPassing(column: string, keys: seq<Key>, pass: Key -> bool, rows: seq<Row>, columns: seq<string>)
    requires forall r | r in rows :: KeyOf(r, columns) in keys
    ensures DistinctOverGroups(column, keys, pass, rows, columns) == Distinct(column, RowsPassing(rows, columns, pass))
  {
    var a, b := DistinctOverGroups(column, keys, pass, rows, columns), Distinct(column, RowsPassing(rows, columns, pass));
    forall t | t in a ensures t in b {
      var k :| k in keys && pass(k) && t in Distinct(column, Group(rows, columns, k));
      var r :| r in Group(rows, columns, k) && At(r, column).Cell? && At(r, column).text == t;
      InGroup(rows, columns, k, r);
      InPassing(rows, columns, pass, r);
    }
    forall t | t in b ensures t in a {
      var r :| r in RowsPassing(rows, columns, pass) && At(r, column).Cell? && At(r, column).text == t;
      InPassing(rows, columns, pass, r);
      var k := KeyOf(r, columns);
      InGroup(rows, columns, k, r);
      assert k in keys && pass(k) && t in Distinct(column, Group(rows, columns, k));
    }
  }

  /** Numbers of different values are added up too. The total is the number of different pages, or sessions, of all rows
      whose group passes if and only if none of them occurs in two groups that pass. */
  lemma UniquesAddIff(metrics: seq<Metric>, j: nat, column: string, bounceThreshold: real,
                      rows: seq<Row>, columns: seq<string>, keys: seq<Key>, pass: Key -> bool, median: Median)
    requires j < |metrics| && IsGrouping(keys, rows, columns)
    requires (metrics[j] == UniquePages && column == "path") || (metrics[j] == UniqueSessionsWithGoals && column == "session_id")
    ensures OuterValue(OuterParts(metrics, bounceThreshold)[j], keys, pass, Unique(InnerParts(metrics, bounceThreshold)),
                       rows, columns, median)
            == |Distinct(column, RowsPassing(rows, columns, pass))| as real
            <==> NoSharedValue(column, keys, pass, rows, columns)
  {
    var size := (k: Key) => |Distinct(column, Group(rows, columns, k))| as real;
    OneColumn(metrics, j, InnerPart(UniqueIn(column), "_" + Name(metrics[j])), bounceThreshold, rows, columns, keys, pass, median, size);
    SumOfSizes(column, keys, pass, rows, columns, size);
    DistinctOfPassing(column, keys, pass, rows, columns);
  }

  // ---------------------------------------------------------------- the loop

  /** The metric loop of `buildFilteredTotalsQuery` and the removal of duplicate inner columns. */
  method BuildTotals(metrics: seq<Metric>, bounceThreshold: real) returns (inner: seq<InnerPart>, outer: seq<OuterPart>)
    ensures inner == Unique(InnerParts(metrics, bounceThreshold)) && outer == OuterParts(metrics, bounceThreshold)
  {
    var innerSelectParts: seq<InnerPart> := [];
    outer := [];
    for k := 0 to |metrics|
      invariant innerSelectParts == InnerParts(metrics[..k], bounceThreshold)
      invariant outer == OuterParts(metrics[..k], bounceThreshold)
    {
      assert metrics[..k + 1][..k] == metrics[..k];
      var (parts, part) := CompileMetric(metrics[k], bounceThreshold);
      innerSelectParts := innerSelectParts + parts;
      outer := outer + [part];
    }
    assert metrics[..|metrics|] == metrics;
    inner := Unique(innerSelectParts);
  }
}
