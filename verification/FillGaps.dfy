/** Filling the gaps of a time series: one row for every bucket and combination of dimension values. */
module FillGaps {
  import opened Decimal
  import opened Calendar

  // ---------------------------------------------------------------- labels

  function TwoDigits(n: nat): (s: string)
    requires n < 100
    ensures |s| == 2
  {
    [DigitChar(n / 10), DigitChar(n % 10)]
  }

  function Padded(s: string): string
    decreases 4 - |s|
  {
    if |s| >= 4 then s else Padded("0" + s)
  }

  function YearText(year: int): string {
    if year < 0 then Padded(IntText(year)) else Padded(NatText(year))
  }

  /** The text of a bucket: `YYYY-MM-DD HH:00:00`, `YYYY-MM-DD`, `YYYY-MM-01` or `YYYY-01-01`. */
  function Format(m: Moment, unit: Unit): string
    requires Valid(m)
  {
    match unit
    case Hour => YearText(m.year) + ("-" + TwoDigits(m.month) + "-" + TwoDigits(m.day) + " " + TwoDigits(m.ms / HOUR_MS) + ":00:00")
    case Month => YearText(m.year) + ("-" + TwoDigits(m.month) + "-01")
    case Year => YearText(m.year) + "-01-01"
    case _ => YearText(m.year) + ("-" + TwoDigits(m.month) + "-" + TwoDigits(m.day))
  }

  lemma {:induction false} LeadingZero(s: string)
    requires AllDigits(s)
    ensures AllDigits("0" + s) && NatValue("0" + s) == NatValue(s)
  {
    if s == [] {
      assert ("0" + s)[..0] == [];
    } else {
      LeadingZero(s[..|s| - 1]);
      assert ("0" + s)[..|s|] == "0" + s[..|s| - 1];
    }
  }

  lemma {:induction false} PaddedValue(s: string)
    requires AllDigits(s)
    ensures AllDigits(Padded(s)) && NatValue(Padded(s)) == NatValue(s)
    decreases 4 - |s|
  {
    if |s| < 4 {
      LeadingZero(s);
      PaddedValue("0" + s);
    }
  }

  lemma YearTextInjective(a: nat, b: nat)
    ensures YearText(a) == YearText(b) <==> a == b
  {
    PaddedValue(NatText(a));
    PaddedValue(NatText(b));
    NatValueOfText(a);
    NatValueOfText(b);
  }

  lemma SameTail(a: string, b: string, s: string, t: string)
    requires |s| == |t|
    ensures a + s == b + t <==> a == b && s == t
  {
    if a + s == b + t {
      assert |a| == |b|;
      assert a == (a + s)[..|a|] && s == (a + s)[|a|..];
      assert b == (b + t)[..|a|] && t == (b + t)[|a|..];
    }
  }

  lemma TwoDigitsInjective(a: nat, b: nat)
    requires a < 100 && b < 100
    ensures TwoDigits(a) == TwoDigits(b) <==> a == b
  {
    if TwoDigits(a) == TwoDigits(b) {
      assert TwoDigits(a)[0] == DigitChar(a / 10) && TwoDigits(a)[1] == DigitChar(a % 10);
      assert TwoDigits(b)[0] == DigitChar(b / 10) && TwoDigits(b)[1] == DigitChar(b % 10);
    }
  }

  lemma DateTextInjective(a: Moment, b: Moment)
    requires Valid(a) && Valid(b)
    ensures "-" + TwoDigits(a.month) + "-" + TwoDigits(a.day) == "-" + TwoDigits(b.month) + "-" + TwoDigits(b.day)
            <==> a.month == b.month && a.day == b.day
  {
    TwoDigitsInjective(a.month, b.month);
    TwoDigitsInjective(a.day, b.day);
    SameTail("-" + TwoDigits(a.month) + "-", "-" + TwoDigits(b.month) + "-", TwoDigits(a.day), TwoDigits(b.day));
    SameTail("-" + TwoDigits(a.month), "-" + TwoDigits(b.month), "-", "-");
    SameTail("-", "-", TwoDigits(a.month), TwoDigits(b.month));
  }

  lemma HourTextInjective(a: Moment, b: Moment)
    requires Valid(a) && Valid(b) && a.year >= 0 && b.year >= 0
    ensures Format(a, Hour) == Format(b, Hour) <==>
            a.year == b.year && a.month == b.month && a.day == b.day && a.ms / HOUR_MS == b.ms / HOUR_MS
  {
    YearTextInjective(a.year, b.year);
    DateTextInjective(a, b);
    TwoDigitsInjective(a.ms / HOUR_MS, b.ms / HOUR_MS);
    var dateA, dateB := "-" + TwoDigits(a.month) + "-" + TwoDigits(a.day), "-" + TwoDigits(b.month) + "-" + TwoDigits(b.day);
    var hourA, hourB := TwoDigits(a.ms / HOUR_MS), TwoDigits(b.ms / HOUR_MS);
    SameTail(YearText(a.year), YearText(b.year), dateA + " " + hourA + ":00:00", dateB + " " + hourB + ":00:00");
    SameTail(dateA + " " + hourA, dateB + " " + hourB, ":00:00", ":00:00");
    SameTail(dateA + " ", dateB + " ", hourA, hourB);
    SameTail(dateA, dateB, " ", " ");
  }

  lemma ShortText(n: nat)
    requires n < 10000
    ensures |NatText(n)| <= 4
  {
    var a, b, c := n / 10, n / 100, n / 1000;
    assert b == a / 10 && c == b / 10;
    assert |NatText(c)| == 1;
    assert |NatText(b)| <= 2;
    assert |NatText(a)| <= 3;
  }

  lemma {:induction false} PaddedLength(s: string)
    ensures |Padded(s)| == if |s| >= 4 then |s| else 4
    decreases 4 - |s|
  {
    if |s| < 4 { PaddedLength("0" + s); }
  }

  lemma TwoDigitsValue(n: nat)
    requires n < 100
    ensures AllDigits(TwoDigits(n)) && NatValue(TwoDigits(n)) == n
  {
    var s := TwoDigits(n);
    assert s[..1] == [DigitChar(n / 10)];
    assert NatValue([DigitChar(n / 10)][..0]) == 0;
    assert NatValue(s[..1]) == n / 10;
  }

  /** A label reads as the bucket's date and hour, each at its place, for the years that have four digits. */
  lemma LabelReads(m: Moment, unit: Unit)
    requires Valid(m) && 0 <= m.year < 10000
    ensures var f := Format(m, unit);
            && |f| == (if unit == Hour then 19 else 10)
            && AllDigits(f[..4]) && NatValue(f[..4]) == m.year && f[4] == '-' && f[7] == '-'
            && (if unit == Year then f[4..] == "-01-01" else AllDigits(f[5..7]) && NatValue(f[5..7]) == m.month)
            && (unit == Month ==> f[8..] == "01")
            && (unit in {Hour, Day, Week} ==> AllDigits(f[8..10]) && NatValue(f[8..10]) == m.day)
            && (unit == Hour ==> f[10] == ' ' && AllDigits(f[11..13]) && NatValue(f[11..13]) == m.ms / HOUR_MS && f[13..] == ":00:00")
  {
    var f := Format(m, unit);
    ShortText(m.year);
    PaddedLength(NatText(m.year));
    PaddedValue(NatText(m.year));
    NatValueOfText(m.year);
    TwoDigitsValue(m.month);
    TwoDigitsValue(m.day);
    TwoDigitsValue(m.ms / HOUR_MS);
    assert f[..4] == YearText(m.year);
    match unit {
      case Hour =>
        assert f[5..7] == TwoDigits(m.month) && f[8..10] == TwoDigits(m.day) && f[11..13] == TwoDigits(m.ms / HOUR_MS);
      case Month => assert f[5..7] == TwoDigits(m.month);
      case Year =>
      case _ => assert f[5..7] == TwoDigits(m.month) && f[8..10] == TwoDigits(m.day);
    }
  }

  /** Two bucket starts print alike exactly when they are the same bucket. */
  lemma FormatInjective(a: Moment, b: Moment, unit: Unit)
    requires Aligned(a, unit) && Aligned(b, unit) && a.year >= 0 && b.year >= 0
    ensures Format(a, unit) == Format(b, unit) <==> Index(a, unit) == Index(b, unit)
  {
    YearTextInjective(a.year, b.year);
    match unit {
      case Hour =>
        HourTextInjective(a, b);
        SameIndexSameBucket(a, b, Hour);
        HourParts(a);
        HourParts(b);
      case Month =>
        TwoDigitsInjective(a.month, b.month);
        SameTail(YearText(a.year), YearText(b.year), "-" + TwoDigits(a.month) + "-01", "-" + TwoDigits(b.month) + "-01");
        SameTail("-" + TwoDigits(a.month), "-" + TwoDigits(b.month), "-01", "-01");
        SameTail("-", "-", TwoDigits(a.month), TwoDigits(b.month));
      case Year =>
        SameTail(YearText(a.year), YearText(b.year), "-01-01", "-01-01");
      case _ =>
        DateTextInjective(a, b);
        SameTail(YearText(a.year), YearText(b.year), "-" + TwoDigits(a.month) + "-" + TwoDigits(a.day),
                 "-" + TwoDigits(b.month) + "-" + TwoDigits(b.day));
        if DayNumber(a) == DayNumber(b) { SameDayNumberSameDate(a, b); }
        if unit == Week {
          WeeksOf(DayNumber(a));
          WeeksOf(DayNumber(b));
        }
    }
  }

  // ---------------------------------------------------------------- joining and splitting

  predicate HasBar(s: string) {
    exists i | 0 <= i < |s| :: s[i] == '|'
  }

  function Join(values: seq<string>): string {
    if values == [] then "" else if |values| == 1 then values[0] else values[0] + "|" + Join(values[1..])
  }

  /** The pieces of a text between its bars, the first of which continues with what was read already. */
  function SplitFrom(piece: string, s: string): (pieces: seq<string>)
    ensures |pieces| >= 1
    decreases |s|
  {
    if s == [] then [piece]
    else if s[0] == '|' then [piece] + SplitFrom("", s[1..])
    else SplitFrom(piece + [s[0]], s[1..])
  }

  function Split(s: string): (pieces: seq<string>)
    ensures |pieces| >= 1
  {
    SplitFrom("", s)
  }

  lemma {:induction false} SplitFromPlain(piece: string, s: string, rest: string)
    requires !HasBar(s)
    ensures SplitFrom(piece, s + "|" + rest) == [piece + s] + SplitFrom("", rest)
    ensures SplitFrom(piece, s) == [piece + s]
    decreases |s|
  {
    if s == [] {
      assert s + "|" + rest == "|" + rest;
      assert ("|" + rest)[1..] == rest;
      assert piece + s == piece;
    } else {
      assert (s + "|" + rest)[1..] == s[1..] + "|" + rest;
      assert s[0] != '|';
      assert (piece + [s[0]]) + s[1..] == piece + s;
      assert forall i | 0 <= i < |s| - 1 :: s[1..][i] == s[i + 1];
      SplitFromPlain(piece + [s[0]], s[1..], rest);
    }
  }

  lemma {:induction false} PiecesArePlain(piece: string, s: string, i: nat)
    requires !HasBar(piece) && i < |SplitFrom(piece, s)|
    ensures !HasBar(SplitFrom(piece, s)[i])
    decreases |s|
  {
    if s != [] && s[0] == '|' {
      if i > 0 { PiecesArePlain("", s[1..], i - 1); }
    } else if s != [] {
      PiecesArePlain(piece + [s[0]], s[1..], i);
    }
  }

  lemma {:induction false} SplitJoinPlain(values: seq<string>)
    requires values != [] && forall i | 0 <= i < |values| :: !HasBar(values[i])
    ensures Split(Join(values)) == values
  {
    if |values| == 1 {
      SplitFromPlain("", values[0], "");
      assert "" + values[0] == values[0];
      assert values == [values[0]];
    } else {
      SplitFromPlain("", values[0], Join(values[1..]));
      SplitJoinPlain(values[1..]);
      assert "" + values[0] == values[0];
      assert values == [values[0]] + values[1..];
    }
  }

  lemma {:induction false} EnoughPieces(piece: string, s: string)
    ensures |SplitFrom(piece, s)| == 1 + Bars(s)
    decreases |s|
  {
    if s != [] {
      EnoughPieces(if s[0] == '|' then "" else piece + [s[0]], s[1..]);
    }
  }

  ghost function Bars(s: string): nat {
    if s == [] then 0 else (if s[0] == '|' then 1 else 0) + Bars(s[1..])
  }

  lemma {:induction false} BarsAdd(s: string, t: string)
    ensures Bars(s + t) == Bars(s) + Bars(t)
  {
    if s == [] {
      assert s + t == t;
    } else {
      assert (s + t)[1..] == s[1..] + t;
      BarsAdd(s[1..], t);
    }
  }

  /** A joined text has at least one piece for every value, so the dimensions of a gap are always defined. */
  lemma {:induction false} PiecesOfJoin(values: seq<string>)
    requires values != []
    ensures |Split(Join(values))| >= |values|
  {
    EnoughPieces("", Join(values));
    if |values| > 1 {
      PiecesOfJoin(values[1..]);
      EnoughPieces("", Join(values[1..]));
      BarsAdd(values[0], "|" + Join(values[1..]));
      BarsAdd("|", Join(values[1..]));
      assert values[0] + "|" + Join(values[1..]) == values[0] + ("|" + Join(values[1..]));
      assert Bars("|") == 1;
    }
  }

  /** Dimension values come back through join and split exactly when none of them contains a bar. */
  lemma SplitOfJoin(values: seq<string>)
    requires values != []
    ensures |Split(Join(values))| >= |values|
    ensures Split(Join(values))[..|values|] == values <==> forall i | 0 <= i < |values| :: !HasBar(values[i])
  {
    PiecesOfJoin(values);
    var pieces := Split(Join(values));
    if pieces[..|values|] == values {
      forall i | 0 <= i < |values| ensures !HasBar(values[i]) {
        PiecesArePlain("", Join(values), i);
        assert pieces[..|values|][i] == pieces[i];
      }
    } else if forall i | 0 <= i < |values| :: !HasBar(values[i]) {
      SplitJoinPlain(values);
    }
  }

  // ---------------------------------------------------------------- rows

  /** A field of a result row; `text` is what `String` or `JSON.stringify` makes of it. */
  datatype Field = Null | Text(text: string) | Number(value: real, text: string) | Other(text: string)

  /** A row: its date column, parsed, and its other fields. */
  datatype Row = Row(date: Moment, fields: map<string, Field>)

  function DimensionText(row: Row, dimension: string): string {
    if dimension !in row.fields || row.fields[dimension].Null? then "" else row.fields[dimension].text
  }

  function DimensionTexts(row: Row, dimensions: seq<string>): (r: seq<string>)
    ensures |r| == |dimensions|
  {
    seq(|dimensions|, i requires 0 <= i < |dimensions| => DimensionText(row, dimensions[i]))
  }

  function Combo(row: Row, dimensions: seq<string>): string {
    Join(DimensionTexts(row, dimensions))
  }

  function Key(bucket: string, combo: string): string {
    bucket + "|" + combo
  }

  ghost predicate ValidRows(data: seq<Row>) {
    forall i | 0 <= i < |data| :: Valid(data[i].date)
  }

  function RowKey(row: Row, dimensions: seq<string>, unit: Unit): string
    requires Valid(row.date)
  {
    if dimensions == [] then Format(row.date, unit) else Key(Format(row.date, unit), Combo(row, dimensions))
  }

  function RowKeys(data: seq<Row>, dimensions: seq<string>, unit: Unit): (keys: seq<string>)
    requires ValidRows(data)
    ensures |keys| == |data|
  {
    seq(|data|, i requires 0 <= i < |data| => RowKey(data[i], dimensions, unit))
  }

  /** The distinct combinations in the order in which they first occur. */
  function Combos(data: seq<Row>, dimensions: seq<string>): seq<string> {
    if data == [] then []
    else
      var before := Combos(data[..|data| - 1], dimensions);
      var combo := Combo(data[|data| - 1], dimensions);
      if combo in before then before else before + [combo]
  }

  /** The last row of every key. */
  function LastRows(keys: seq<string>, data: seq<Row>): map<string, Row>
    requires |keys| == |data|
  {
    if data == [] then map[]
    else LastRows(keys[..|data| - 1], data[..|data| - 1])[keys[|data| - 1] := data[|data| - 1]]
  }

  function WithDimensions(fields: map<string, Field>, dimensions: seq<string>, values: seq<string>): map<string, Field>
    requires |dimensions| <= |values|
  {
    if dimensions == [] then fields
    else
      var n := |dimensions| - 1;
      WithDimensions(fields, dimensions[..n], values[..n])[dimensions[n] := Text(values[n])]
  }

  function WithZeros(fields: map<string, Field>, metrics: seq<string>): map<string, Field> {
    if metrics == [] then fields
    else WithZeros(fields, metrics[..|metrics| - 1])[metrics[|metrics| - 1] := Number(0.0, "0")]
  }

  function ZeroRow(date: Moment, dimensions: seq<string>, values: seq<string>, metrics: seq<string>): Row
    requires |dimensions| <= |values|
  {
    Row(date, WithZeros(WithDimensions(map[], dimensions, values), metrics))
  }

  // ---------------------------------------------------------------- the grid

  /** A place of the result. */
  datatype Place = Place(date: Moment, combo: string)

  /** Every date with every combination, by date. */
  function Places(dates: seq<Moment>, combos: seq<string>): seq<Place> {
    if dates == [] then []
    else Places(dates[..|dates| - 1], combos) + Line(dates[|dates| - 1], combos)
  }

  function Line(date: Moment, combos: seq<string>): (places: seq<Place>)
    ensures |places| == |combos|
  {
    seq(|combos|, j requires 0 <= j < |combos| => Place(date, combos[j]))
  }

  function PlaceKey(place: Place, dimensions: seq<string>, unit: Unit): string
    requires Valid(place.date)
  {
    if dimensions == [] then Format(place.date, unit) else Key(Format(place.date, unit), place.combo)
  }

  /** The row of a place: the last one with its key, or a row of zeros. */
  function RowAt(place: Place, rows: map<string, Row>, dimensions: seq<string>, metrics: seq<string>, unit: Unit): Row
    requires Valid(place.date) && |dimensions| <= |Split(place.combo)|
  {
    var key := PlaceKey(place, dimensions, unit);
    if key in rows then rows[key] else ZeroRow(place.date, dimensions, Split(place.combo), metrics)
  }

  ghost predicate ValidPlaces(places: seq<Place>, dimensions: seq<string>) {
    forall i | 0 <= i < |places| :: Valid(places[i].date) && |dimensions| <= |Split(places[i].combo)|
  }

  function RowsAt(places: seq<Place>, rows: map<string, Row>, dimensions: seq<string>, metrics: seq<string>, unit: Unit): (r: seq<Row>)
    requires ValidPlaces(places, dimensions)
    ensures |r| == |places|
  {
    if places == [] then []
    else RowsAt(places[..|places| - 1], rows, dimensions, metrics, unit) + [RowAt(places[|places| - 1], rows, dimensions, metrics, unit)]
  }

  lemma {:induction false} RowsAtIndex(places: seq<Place>, rows: map<string, Row>, dimensions: seq<string>,
                                       metrics: seq<string>, unit: Unit, i: nat)
    requires ValidPlaces(places, dimensions) && i < |places|
    ensures RowsAt(places, rows, dimensions, metrics, unit)[i] == RowAt(places[i], rows, dimensions, metrics, unit)
  {
    if i < |places| - 1 {
      RowsAtIndex(places[..|places| - 1], rows, dimensions, metrics, unit, i);
    }
  }

  ghost predicate ValidDates(dates: seq<Moment>) {
    forall i | 0 <= i < |dates| :: Valid(dates[i])
  }

  /** Without dimensions there is one place for each date, whatever the rows. */
  function CombosFor(data: seq<Row>, dimensions: seq<string>): seq<string> {
    if dimensions == [] then [""] else Combos(data, dimensions)
  }

  lemma {:induction false} CombosSplit(data: seq<Row>, dimensions: seq<string>)
    requires dimensions != []
    ensures forall j | 0 <= j < |Combos(data, dimensions)| :: |dimensions| <= |Split(Combos(data, dimensions)[j])|
  {
    if data != [] {
      CombosSplit(data[..|data| - 1], dimensions);
      PiecesOfJoin(DimensionTexts(data[|data| - 1], dimensions));
    }
  }

  lemma {:induction false} PlacesValid(dates: seq<Moment>, combos: seq<string>, dimensions: seq<string>)
    requires ValidDates(dates) && forall j | 0 <= j < |combos| :: |dimensions| <= |Split(combos[j])|
    ensures ValidPlaces(Places(dates, combos), dimensions)
  {
    if dates != [] {
      PlacesValid(dates[..|dates| - 1], combos, dimensions);
    }
  }

  lemma GridValid(dates: seq<Moment>, data: seq<Row>, dimensions: seq<string>)
    requires ValidDates(dates)
    ensures ValidPlaces(Places(dates, CombosFor(data, dimensions)), dimensions)
  {
    if dimensions != [] { CombosSplit(data, dimensions); }
    PlacesValid(dates, CombosFor(data, dimensions), dimensions);
  }

  /** The places come in order: combination j of date i is number i * |combos| + j. */
  lemma {:induction false} PlacesAt(dates: seq<Moment>, combos: seq<string>, i: nat, j: nat)
    requires i < |dates| && j < |combos|
    ensures |Places(dates, combos)| == |dates| * |combos|
    ensures 0 <= i * |combos| + j < |Places(dates, combos)|
    ensures Places(dates, combos)[i * |combos| + j] == Place(dates[i], combos[j])
  {
    var n := |dates| - 1;
    PlacesCount(dates[..n], combos);
    PlacesCount(dates, combos);
    if i < n {
      PlacesAt(dates[..n], combos, i, j);
    } else {
      assert i * |combos| == |Places(dates[..n], combos)|;
    }
    assert i * |combos| + j < |dates| * |combos| by {
      assert (i + 1) * |combos| <= |dates| * |combos|;
      assert (i + 1) * |combos| == i * |combos| + |combos|;
    }
  }

  lemma {:induction false} PlacesCount(dates: seq<Moment>, combos: seq<string>)
    ensures |Places(dates, combos)| == |dates| * |combos|
  {
    if dates != [] {
      PlacesCount(dates[..|dates| - 1], combos);
      assert |dates| * |combos| == (|dates| - 1) * |combos| + |combos|;
    }
  }

  // ---------------------------------------------------------------- the operation

  method MakeZeroRow(date: Moment, dimensions: seq<string>, values: seq<string>, metrics: seq<string>) returns (zeroRow: Row)
    requires |dimensions| <= |values|
    ensures zeroRow == ZeroRow(date, dimensions, values, metrics)
  {
    zeroRow := Row(date, map[]);
    for i := 0 to |dimensions|
      invariant zeroRow == Row(date, WithDimensions(map[], dimensions[..i], values[..i]))
    {
      zeroRow := zeroRow.(fields := zeroRow.fields[dimensions[i] := Text(values[i])]);
      assert dimensions[..i + 1][..i] == dimensions[..i] && values[..i + 1][..i] == values[..i];
    }
    ghost var withDimensions := zeroRow.fields;
    DimensionsOnly(dimensions, values);
    for i := 0 to |metrics|
      invariant zeroRow == Row(date, WithZeros(withDimensions, metrics[..i]))
    {
      zeroRow := zeroRow.(fields := zeroRow.fields[metrics[i] := Number(0.0, "0")]);
      assert metrics[..i + 1][..i] == metrics[..i];
    }
    assert metrics[..|metrics|] == metrics;
  }

  lemma DimensionsOnly(dimensions: seq<string>, values: seq<string>)
    requires |dimensions| <= |values|
    ensures WithDimensions(map[], dimensions[..|dimensions|], values[..|dimensions|]) == WithDimensions(map[], dimensions, values)
  {
    assert dimensions[..|dimensions|] == dimensions;
    if dimensions != [] {
      var n := |dimensions| - 1;
      assert values[..|dimensions|][..n] == values[..n];
    }
  }

  /** The gap filler and its loops: one that enumerates the buckets, one that collects the rows
      and the combinations, and two nested ones that build the result. */
  method FillGaps(data: seq<Row>, unit: Unit, start: Moment, end: Moment, metrics: seq<string>, dimensions: seq<string>)
    returns (dates: seq<Moment>, result: seq<Row>)
    requires ValidRows(data) && Valid(start) && Valid(end)
    ensures Covers(dates, Index(start, unit), LastIndex(end, unit), unit)
    ensures ValidPlaces(Places(dates, CombosFor(data, dimensions)), dimensions)
    ensures result == RowsAt(Places(dates, CombosFor(data, dimensions)), LastRows(RowKeys(data, dimensions, unit), data),
                             dimensions, metrics, unit)
  {
    dates := EnumerateBuckets(start, end, unit);
    GridValid(dates, data, dimensions);
    if dimensions == [] {
      var dataMap := CollectDates(data, unit);
      result := FillDates(dates, dataMap, metrics, unit);
    } else {
      var combos, dataMap := CollectRows(data, dimensions, unit);
      CombosSplit(data, dimensions);
      result := FillGrid(dates, combos, dataMap, dimensions, metrics, unit);
    }
  }

  /** The places filled when the loops have reached combination j of date i. */
  ghost function PlacesBefore(dates: seq<Moment>, combos: seq<string>, i: nat, j: nat): seq<Place>
    requires i < |dates| && j <= |combos|
  {
    Places(dates[..i], combos) + Line(dates[i], combos)[..j]
  }

  lemma LineBegun(dates: seq<Moment>, combos: seq<string>, i: nat)
    requires i < |dates|
    ensures PlacesBefore(dates, combos, i, 0) == Places(dates[..i], combos)
  {
  }

  lemma LineGrows(dates: seq<Moment>, combos: seq<string>, i: nat, j: nat)
    requires i < |dates| && j < |combos|
    ensures PlacesBefore(dates, combos, i, j + 1) == PlacesBefore(dates, combos, i, j) + [Place(dates[i], combos[j])]
  {
    var places := Line(dates[i], combos);
    assert places[..j + 1] == places[..j] + [Place(dates[i], combos[j])];
  }

  lemma LineDone(dates: seq<Moment>, combos: seq<string>, i: nat)
    requires i < |dates|
    ensures PlacesBefore(dates, combos, i, |combos|) == Places(dates[..i + 1], combos)
  {
    assert dates[..i + 1][..i] == dates[..i];
    assert Line(dates[i], combos)[..|combos|] == Line(dates[i], combos);
  }

  lemma DateDone(dates: seq<Moment>, i: nat)
    requires i < |dates|
    ensures Places(dates[..i + 1], [""]) == Places(dates[..i], [""]) + [Place(dates[i], "")]
  {
    assert dates[..i + 1][..i] == dates[..i];
    assert Line(dates[i], [""]) == [Place(dates[i], "")];
  }

  lemma RowsAtOneMore(places: seq<Place>, place: Place, rows: map<string, Row>, dimensions: seq<string>, metrics: seq<string>, unit: Unit)
    requires ValidPlaces(places, dimensions) && Valid(place.date) && |dimensions| <= |Split(place.combo)|
    ensures ValidPlaces(places + [place], dimensions)
    ensures RowsAt(places + [place], rows, dimensions, metrics, unit)
            == RowsAt(places, rows, dimensions, metrics, unit) + [RowAt(place, rows, dimensions, metrics, unit)]
  {
    assert (places + [place])[..|places|] == places;
  }

  /** One place of the result, in either branch. */
  method FillPlace(date: Moment, combo: string, dataMap: map<string, Row>, dimensions: seq<string>, metrics: seq<string>, unit: Unit)
    returns (row: Row)
    requires Valid(date) && |dimensions| <= |Split(combo)|
    ensures row == RowAt(Place(date, combo), dataMap, dimensions, metrics, unit)
  {
    var key := PlaceKey(Place(date, combo), dimensions, unit);
    if key in dataMap {
      row := dataMap[key];
    } else {
      row := MakeZeroRow(date, dimensions, Split(combo), metrics);
    }
  }

  method CollectDates(data: seq<Row>, unit: Unit) returns (dataMap: map<string, Row>)
    requires ValidRows(data)
    ensures dataMap == LastRows(RowKeys(data, [], unit), data)
  {
    dataMap := map[];
    ghost var keys := RowKeys(data, [], unit);
    for i := 0 to |data|
      invariant dataMap == LastRows(keys[..i], data[..i])
    {
      assert keys[..i + 1][..i] == keys[..i] && data[..i + 1][..i] == data[..i];
      dataMap := dataMap[Format(data[i].date, unit) := data[i]];
    }
    assert keys[..|data|] == keys && data[..|data|] == data;
  }

  method FillDates(dates: seq<Moment>, dataMap: map<string, Row>, metrics: seq<string>, unit: Unit) returns (result: seq<Row>)
    requires ValidDates(dates)
    ensures ValidPlaces(Places(dates, [""]), [])
    ensures result == RowsAt(Places(dates, [""]), dataMap, [], metrics, unit)
  {
    result := [];
    for i := 0 to |dates|
      invariant ValidPlaces(Places(dates[..i], [""]), [])
      invariant result == RowsAt(Places(dates[..i], [""]), dataMap, [], metrics, unit)
    {
      var row := FillPlace(dates[i], "", dataMap, [], metrics, unit);
      result := result + [row];
      DateDone(dates, i);
      RowsAtOneMore(Places(dates[..i], [""]), Place(dates[i], ""), dataMap, [], metrics, unit);
    }
    assert dates[..|dates|] == dates;
  }

  method CollectRows(data: seq<Row>, dimensions: seq<string>, unit: Unit) returns (combos: seq<string>, dataMap: map<string, Row>)
    requires ValidRows(data) && dimensions != []
    ensures combos == Combos(data, dimensions)
    ensures dataMap == LastRows(RowKeys(data, dimensions, unit), data)
  {
    combos, dataMap := [], map[];
    ghost var keys := RowKeys(data, dimensions, unit);
    for i := 0 to |data|
      invariant combos == Combos(data[..i], dimensions)
      invariant dataMap == LastRows(keys[..i], data[..i])
    {
      var combo := Join(DimensionTexts(data[i], dimensions));
      assert keys[..i + 1][..i] == keys[..i] && data[..i + 1][..i] == data[..i];
      if combo !in combos {
        combos := combos + [combo];
      }
      dataMap := dataMap[Key(Format(data[i].date, unit), combo) := data[i]];
    }
    assert keys[..|data|] == keys && data[..|data|] == data;
  }

  method FillGrid(dates: seq<Moment>, combos: seq<string>, dataMap: map<string, Row>, dimensions: seq<string>,
                  metrics: seq<string>, unit: Unit) returns (result: seq<Row>)
    requires dimensions != [] && ValidDates(dates) && forall j | 0 <= j < |combos| :: |dimensions| <= |Split(combos[j])|
    ensures ValidPlaces(Places(dates, combos), dimensions)
    ensures result == RowsAt(Places(dates, combos), dataMap, dimensions, metrics, unit)
  {
    result := [];
    for i := 0 to |dates|
      invariant ValidPlaces(Places(dates[..i], combos), dimensions)
      invariant result == RowsAt(Places(dates[..i], combos), dataMap, dimensions, metrics, unit)
    {
      LineBegun(dates, combos, i);
      for j := 0 to |combos|
        invariant ValidPlaces(PlacesBefore(dates, combos, i, j), dimensions)
        invariant result == RowsAt(PlacesBefore(dates, combos, i, j), dataMap, dimensions, metrics, unit)
      {
        var row := FillPlace(dates[i], combos[j], dataMap, dimensions, metrics, unit);
        result := result + [row];
        LineGrows(dates, combos, i, j);
        RowsAtOneMore(PlacesBefore(dates, combos, i, j), Place(dates[i], combos[j]), dataMap, dimensions, metrics, unit);
      }
      LineDone(dates, combos, i);
    }
    assert dates[..|dates|] == dates;
  }

  // ---------------------------------------------------------------- conservation

  predicate Distinct(keys: seq<string>) {
    forall i, j | 0 <= i < j < |keys| :: keys[i] != keys[j]
  }

  /** The rows found under a list of keys. */
  ghost function Found(keys: seq<string>, rows: map<string, Row>): seq<Row> {
    if keys == [] then []
    else Found(keys[..|keys| - 1], rows) + FoundAt(keys[|keys| - 1], rows)
  }

  function Value(row: Row, metric: string): real {
    if metric in row.fields && row.fields[metric].Number? then row.fields[metric].value else 0.0
  }

  ghost function Sum(rows: seq<Row>, metric: string): real {
    if rows == [] then 0.0 else Sum(rows[..|rows| - 1], metric) + Value(rows[|rows| - 1], metric)
  }

  lemma SumExtended(rows: seq<Row>, row: Row, metric: string)
    ensures Sum(rows + [row], metric) == Sum(rows, metric) + Value(row, metric)
  {
    assert (rows + [row])[..|rows|] == rows;
  }

  lemma {:induction false} FoundWithout(keys: seq<string>, rows: map<string, Row>, key: string, row: Row)
    requires key !in keys
    ensures Found(keys, rows[key := row]) == Found(keys, rows)
  {
    if keys != [] {
      assert keys[|keys| - 1] != key;
      FoundWithout(keys[..|keys| - 1], rows, key, row);
    }
  }

  ghost function FoundAt(key: string, rows: map<string, Row>): seq<Row> {
    if key in rows then [rows[key]] else []
  }

  lemma SumAdds(a: seq<Row>, key: string, rows: map<string, Row>, metric: string)
    ensures Sum(a + FoundAt(key, rows), metric) == Sum(a, metric) + Sum(FoundAt(key, rows), metric)
  {
    if key in rows {
      SumExtended(a, rows[key], metric);
      SumExtended([], rows[key], metric);
      assert [] + [rows[key]] == [rows[key]];
    } else {
      assert a + [] == a;
    }
  }

  /** A row under a new key is found once more if its key is among the keys. */
  lemma {:induction false} FoundWithNew(keys: seq<string>, rows: map<string, Row>, key: string, row: Row)
    requires Distinct(keys) && key in keys && key !in rows
    ensures multiset(Found(keys, rows[key := row])) == multiset(Found(keys, rows)) + multiset{row}
  {
    var init, last := keys[..|keys| - 1], keys[|keys| - 1];
    if last == key {
      FoundWithout(init, rows, key, row);
    } else {
      assert keys == init + [last];
      FoundWithNew(init, rows, key, row);
    }
  }

  lemma {:induction false} SumWithNew(keys: seq<string>, rows: map<string, Row>, key: string, row: Row, metric: string)
    requires Distinct(keys) && key in keys && key !in rows
    ensures Sum(Found(keys, rows[key := row]), metric) == Sum(Found(keys, rows), metric) + Value(row, metric)
  {
    var init, last := keys[..|keys| - 1], keys[|keys| - 1];
    SumAdds(Found(init, rows), last, rows, metric);
    SumAdds(Found(init, rows[key := row]), last, rows[key := row], metric);
    if last == key {
      FoundWithout(init, rows, key, row);
      SumExtended([], row, metric);
      assert [] + [row] == [row];
    } else {
      assert keys == init + [last];
      SumWithNew(init, rows, key, row, metric);
    }
  }

  /** A row under a key in use replaces one. */
  lemma {:induction false} FoundWithUsed(keys: seq<string>, rows: map<string, Row>, key: string, row: Row)
    requires key in rows
    ensures |Found(keys, rows[key := row])| == |Found(keys, rows)|
  {
    if keys != [] {
      FoundWithUsed(keys[..|keys| - 1], rows, key, row);
    }
  }

  lemma {:induction false} LastRowsKeys(keys: seq<string>, data: seq<Row>, key: string)
    requires |keys| == |data|
    ensures key in LastRows(keys, data) <==> key in keys
    ensures key in LastRows(keys, data) ==>
              exists i | 0 <= i < |data| :: keys[i] == key && data[i] == LastRows(keys, data)[key]
  {
    if data != [] {
      var n := |data| - 1;
      LastRowsKeys(keys[..n], data[..n], key);
      assert keys == keys[..n] + [keys[n]];
      if key == keys[n] {
        assert data[n] == LastRows(keys, data)[key];
      } else if key in LastRows(keys, data) {
        var i :| 0 <= i < n && keys[..n][i] == key && data[..n][i] == LastRows(keys[..n], data[..n])[key];
        assert keys[i] == key && data[i] == LastRows(keys, data)[key];
      }
    }
  }

  ghost predicate AllIn(keys: seq<string>, all: seq<string>) {
    forall i | 0 <= i < |keys| :: keys[i] in all
  }

  /** Every row is found once exactly when no two rows share a key and every key is among those looked up. */
  lemma {:induction false} RowsFound(all: seq<string>, keys: seq<string>, data: seq<Row>, metric: string)
    requires Distinct(all) && |keys| == |data|
    ensures |Found(all, LastRows(keys, data))| <= |data|
    ensures |Found(all, LastRows(keys, data))| == |data| <==> Distinct(keys) && AllIn(keys, all)
    ensures Distinct(keys) && AllIn(keys, all) ==>
              multiset(Found(all, LastRows(keys, data))) == multiset(data)
              && Sum(Found(all, LastRows(keys, data)), metric) == Sum(data, metric)
  {
    if data == [] {
      NothingFound(all);
    } else {
      var n := |data| - 1;
      var before := LastRows(keys[..n], data[..n]);
      RowsFound(all, keys[..n], data[..n], metric);
      LastRowsKeys(keys[..n], data[..n], keys[n]);
      assert data == data[..n] + [data[n]];
      if keys[n] in before {
        FoundWithUsed(all, before, keys[n], data[n]);
      } else if keys[n] in all {
        FoundWithNew(all, before, keys[n], data[n]);
        SumWithNew(all, before, keys[n], data[n], metric);
        assert |multiset(Found(all, LastRows(keys, data)))| == |multiset(Found(all, before))| + 1;
      } else {
        FoundWithout(all, before, keys[n], data[n]);
      }
      KeysExtended(all, keys);
    }
  }

  lemma KeysExtended(all: seq<string>, keys: seq<string>)
    requires keys != []
    ensures var n := |keys| - 1;
            Distinct(keys) && AllIn(keys, all) <==> Distinct(keys[..n]) && AllIn(keys[..n], all) && keys[n] !in keys[..n] && keys[n] in all
  {
    var n := |keys| - 1;
    assert keys == keys[..n] + [keys[n]];
    if Distinct(keys[..n]) && keys[n] !in keys[..n] {
      forall i, j | 0 <= i < j < |keys| ensures keys[i] != keys[j] {
        assert keys[i] == keys[..n][i] && keys[i] in keys[..n];
      }
    }
  }

  lemma {:induction false} NothingFound(all: seq<string>)
    ensures Found(all, map[]) == []
  {
    if all != [] { NothingFound(all[..|all| - 1]); }
  }

  // ---------------------------------------------------------------- keys

  /** A bucket start of a year that prints without a sign. */
  ghost predicate IsBucket(m: Moment, unit: Unit) {
    Aligned(m, unit) && m.year >= 0
  }

  ghost predicate AreBuckets(dates: seq<Moment>, unit: Unit) {
    forall i | 0 <= i < |dates| :: IsBucket(dates[i], unit)
  }

  ghost predicate RowsInBuckets(data: seq<Row>, unit: Unit) {
    forall i | 0 <= i < |data| :: IsBucket(data[i].date, unit)
  }

  lemma {:induction false} PaddedPlain(s: string)
    requires AllDigits(s)
    ensures !HasBar(Padded(s))
    decreases 4 - |s|
  {
    if |s| < 4 {
      LeadingZero(s);
      PaddedPlain("0" + s);
    }
  }

  lemma PlainConcat(a: string, b: string)
    requires !HasBar(a) && !HasBar(b)
    ensures !HasBar(a + b)
  {
  }

  lemma FormatPlain(m: Moment, unit: Unit)
    requires Valid(m) && m.year >= 0
    ensures !HasBar(Format(m, unit))
  {
    PaddedPlain(NatText(m.year));
    HourParts(m);
    var date := "-" + TwoDigits(m.month) + "-" + TwoDigits(m.day);
    match unit {
      case Hour => PlainConcat(YearText(m.year), date + " " + TwoDigits(m.ms / HOUR_MS) + ":00:00");
      case Month => PlainConcat(YearText(m.year), "-" + TwoDigits(m.month) + "-01");
      case Year => PlainConcat(YearText(m.year), "-01-01");
      case _ => PlainConcat(YearText(m.year), date);
    }
  }

  lemma BarEndsLabel(a: string, b: string, c: string, d: string)
    requires !HasBar(b) && |a| < |b|
    ensures Key(a, c) != Key(b, d)
  {
    assert Key(a, c)[|a|] == '|';
    assert Key(b, d)[|a|] == b[|a|];
  }

  /** A bar ends the label, so a key determines its label and its combination. */
  lemma KeyParts(a: string, b: string, c: string, d: string)
    requires !HasBar(a) && !HasBar(b)
    ensures Key(a, c) == Key(b, d) <==> a == b && c == d
  {
    if |a| < |b| {
      BarEndsLabel(a, b, c, d);
    } else if |b| < |a| {
      BarEndsLabel(b, a, d, c);
    } else {
      if Key(a, c) == Key(b, d) {
        assert a == Key(a, c)[..|a|] && c == Key(a, c)[|a| + 1..];
        assert b == Key(b, d)[..|b|] && d == Key(b, d)[|b| + 1..];
      }
    }
  }

  lemma PlaceKeyMeaning(a: Place, b: Place, dimensions: seq<string>, unit: Unit)
    requires IsBucket(a.date, unit) && IsBucket(b.date, unit)
    ensures PlaceKey(a, dimensions, unit) == PlaceKey(b, dimensions, unit) <==>
            Index(a.date, unit) == Index(b.date, unit) && (dimensions == [] || a.combo == b.combo)
  {
    FormatInjective(a.date, b.date, unit);
    FormatPlain(a.date, unit);
    FormatPlain(b.date, unit);
    KeyParts(Format(a.date, unit), Format(b.date, unit), a.combo, b.combo);
  }

  function PlaceOf(row: Row, dimensions: seq<string>): Place {
    Place(row.date, Combo(row, dimensions))
  }

  /** Rows share a key exactly when they share the bucket and the joined dimension values. */
  lemma RowKeyMeaning(a: Row, b: Row, dimensions: seq<string>, unit: Unit)
    requires IsBucket(a.date, unit) && IsBucket(b.date, unit)
    ensures RowKey(a, dimensions, unit) == RowKey(b, dimensions, unit) <==>
            Index(a.date, unit) == Index(b.date, unit) && (dimensions == [] || Combo(a, dimensions) == Combo(b, dimensions))
  {
    PlaceKeyMeaning(PlaceOf(a, dimensions), PlaceOf(b, dimensions), dimensions, unit);
  }

  ghost predicate PlainRow(row: Row, dimensions: seq<string>) {
    forall i | 0 <= i < |dimensions| :: !HasBar(DimensionTexts(row, dimensions)[i])
  }

  /** Without bars in the values, joined values are the same exactly when the values are. */
  lemma PlainCombos(a: Row, b: Row, dimensions: seq<string>)
    requires dimensions != [] && PlainRow(a, dimensions) && PlainRow(b, dimensions)
    ensures Combo(a, dimensions) == Combo(b, dimensions) <==> DimensionTexts(a, dimensions) == DimensionTexts(b, dimensions)
  {
    SplitOfJoin(DimensionTexts(a, dimensions));
    SplitOfJoin(DimensionTexts(b, dimensions));
  }

  ghost predicate SameSlot(a: Row, b: Row, dimensions: seq<string>, unit: Unit) {
    Index(a.date, unit) == Index(b.date, unit) && DimensionTexts(a, dimensions) == DimensionTexts(b, dimensions)
  }

  /** With values free of bars, keys are distinct exactly when no two rows have the same bucket and dimensions. */
  lemma DistinctKeys(data: seq<Row>, dimensions: seq<string>, unit: Unit)
    requires RowsInBuckets(data, unit)
    requires forall i | 0 <= i < |data| :: PlainRow(data[i], dimensions)
    ensures Distinct(RowKeys(data, dimensions, unit)) <==>
            forall i, j | 0 <= i < j < |data| :: !SameSlot(data[i], data[j], dimensions, unit)
  {
    var keys := RowKeys(data, dimensions, unit);
    forall i, j | 0 <= i < j < |data| ensures keys[i] != keys[j] <==> !SameSlot(data[i], data[j], dimensions, unit) {
      RowKeyMeaning(data[i], data[j], dimensions, unit);
      if dimensions == [] {
        assert DimensionTexts(data[i], dimensions) == DimensionTexts(data[j], dimensions);
      } else {
        PlainCombos(data[i], data[j], dimensions);
      }
    }
  }

  // ---------------------------------------------------------------- the grid's keys

  ghost function PlaceKeys(places: seq<Place>, dimensions: seq<string>, unit: Unit): (keys: seq<string>)
    requires ValidPlaces(places, dimensions)
    ensures |keys| == |places|
  {
    seq(|places|, i requires 0 <= i < |places| => PlaceKey(places[i], dimensions, unit))
  }

  lemma {:induction false} CombosDistinct(data: seq<Row>, dimensions: seq<string>)
    ensures Distinct(Combos(data, dimensions))
  {
    if data != [] {
      CombosDistinct(data[..|data| - 1], dimensions);
    }
  }

  lemma {:induction false} CombosComplete(data: seq<Row>, dimensions: seq<string>, i: nat)
    requires i < |data|
    ensures Combo(data[i], dimensions) in Combos(data, dimensions)
  {
    if i < |data| - 1 {
      CombosComplete(data[..|data| - 1], dimensions, i);
    }
  }

  ghost predicate IsPlaceOf(place: Place, dates: seq<Moment>, combos: seq<string>, i: int, j: int) {
    0 <= i < |dates| && 0 <= j < |combos| && place == Place(dates[i], combos[j])
  }

  /** Every place is one of a date and a combination, and later places differ in one of them. */
  lemma {:induction false} PlaceParts(dates: seq<Moment>, combos: seq<string>, k: nat) returns (i: nat, j: nat)
    requires k < |Places(dates, combos)|
    ensures IsPlaceOf(Places(dates, combos)[k], dates, combos, i, j)
    ensures k == i * |combos| + j
  {
    var n := |dates| - 1;
    PlacesCount(dates[..n], combos);
    if k < |Places(dates[..n], combos)| {
      i, j := PlaceParts(dates[..n], combos, k);
    } else {
      i, j := n, k - |Places(dates[..n], combos)|;
    }
  }

  lemma PlacesDiffer(dates: seq<Moment>, combos: seq<string>, dimensions: seq<string>, first: int, last: int, unit: Unit,
                     k: nat, l: nat)
    requires Covers(dates, first, last, unit) && AreBuckets(dates, unit) && Distinct(combos)
    requires dimensions == [] ==> |combos| == 1
    requires k < l < |Places(dates, combos)|
    ensures Valid(Places(dates, combos)[k].date) && Valid(Places(dates, combos)[l].date)
    ensures PlaceKey(Places(dates, combos)[k], dimensions, unit) != PlaceKey(Places(dates, combos)[l], dimensions, unit)
  {
    var i, j := PlaceParts(dates, combos, k);
    var p, q := PlaceParts(dates, combos, l);
    PlaceKeyMeaning(Place(dates[i], combos[j]), Place(dates[p], combos[q]), dimensions, unit);
    assert Index(dates[i], unit) == first + i && Index(dates[p], unit) == first + p;
    if i == p {
      assert j < q;
      assert combos[j] != combos[q];
    }
  }

  lemma PlaceKeysDistinct(dates: seq<Moment>, combos: seq<string>, dimensions: seq<string>, first: int, last: int, unit: Unit)
    requires Covers(dates, first, last, unit) && AreBuckets(dates, unit) && Distinct(combos)
    requires dimensions == [] ==> |combos| == 1
    requires ValidPlaces(Places(dates, combos), dimensions)
    ensures Distinct(PlaceKeys(Places(dates, combos), dimensions, unit))
  {
    var keys := PlaceKeys(Places(dates, combos), dimensions, unit);
    forall k, l | 0 <= k < l < |keys| ensures keys[k] != keys[l] {
      PlacesDiffer(dates, combos, dimensions, first, last, unit, k, l);
    }
  }

  lemma RowHasPlace(dates: seq<Moment>, data: seq<Row>, dimensions: seq<string>, first: int, last: int, unit: Unit, r: nat)
    returns (k: nat)
    requires Covers(dates, first, last, unit) && AreBuckets(dates, unit) && RowsInBuckets(data, unit) && r < |data|
    requires first <= Index(data[r].date, unit) <= last
    ensures k < |Places(dates, CombosFor(data, dimensions))|
    ensures var place := Places(dates, CombosFor(data, dimensions))[k];
            Valid(place.date) && PlaceKey(place, dimensions, unit) == RowKey(data[r], dimensions, unit)
  {
    var combos := CombosFor(data, dimensions);
    var i := Index(data[r].date, unit) - first;
    CombosComplete(data, dimensions, r);
    var j :| 0 <= j < |combos| && (dimensions == [] || combos[j] == Combo(data[r], dimensions));
    PlacesAt(dates, combos, i, j);
    PlaceKeyMeaning(Place(dates[i], combos[j]), PlaceOf(data[r], dimensions), dimensions, unit);
    k := i * |combos| + j;
  }

  lemma PlaceIsInRange(dates: seq<Moment>, combos: seq<string>, row: Row, dimensions: seq<string>,
                       first: int, last: int, unit: Unit, k: nat)
    requires Covers(dates, first, last, unit) && AreBuckets(dates, unit) && IsBucket(row.date, unit)
    requires k < |Places(dates, combos)|
    ensures Valid(Places(dates, combos)[k].date)
    ensures PlaceKey(Places(dates, combos)[k], dimensions, unit) == RowKey(row, dimensions, unit) ==> first <= Index(row.date, unit) <= last
  {
    var i, j := PlaceParts(dates, combos, k);
    PlaceKeyMeaning(Place(dates[i], combos[j]), PlaceOf(row, dimensions), dimensions, unit);
    assert Index(dates[i], unit) == first + i;
  }

  /** A row's key is in the grid exactly when its bucket is one of those listed. */
  lemma RowInGrid(dates: seq<Moment>, data: seq<Row>, dimensions: seq<string>, first: int, last: int, unit: Unit, r: nat)
    requires Covers(dates, first, last, unit) && AreBuckets(dates, unit) && RowsInBuckets(data, unit) && r < |data|
    requires ValidPlaces(Places(dates, CombosFor(data, dimensions)), dimensions)
    ensures RowKey(data[r], dimensions, unit) in PlaceKeys(Places(dates, CombosFor(data, dimensions)), dimensions, unit)
            <==> first <= Index(data[r].date, unit) <= last
  {
    var keys := PlaceKeys(Places(dates, CombosFor(data, dimensions)), dimensions, unit);
    if first <= Index(data[r].date, unit) <= last {
      var k := RowHasPlace(dates, data, dimensions, first, last, unit, r);
      assert keys[k] == RowKey(data[r], dimensions, unit);
    }
    forall k | 0 <= k < |keys|
      ensures keys[k] == RowKey(data[r], dimensions, unit) ==> first <= Index(data[r].date, unit) <= last
    {
      PlaceIsInRange(dates, CombosFor(data, dimensions), data[r], dimensions, first, last, unit, k);
    }
  }

  // ---------------------------------------------------------------- rows of zeros

  /** Nothing in these fields counts. */
  ghost predicate AllZero(fields: map<string, Field>) {
    forall f | f in fields :: fields[f].Text? || fields[f] == Number(0.0, "0")
  }

  lemma {:induction false} DimensionsAreText(dimensions: seq<string>, values: seq<string>)
    requires |dimensions| <= |values|
    ensures AllZero(WithDimensions(map[], dimensions, values))
  {
    if dimensions != [] {
      var n := |dimensions| - 1;
      DimensionsAreText(dimensions[..n], values[..n]);
    }
  }

  lemma {:induction false} ZerosAreZero(fields: map<string, Field>, metrics: seq<string>)
    requires AllZero(fields)
    ensures AllZero(WithZeros(fields, metrics))
  {
    if metrics != [] {
      ZerosAreZero(fields, metrics[..|metrics| - 1]);
    }
  }

  lemma {:induction false} ZerosAt(fields: map<string, Field>, metrics: seq<string>, name: string)
    ensures name in metrics ==> name in WithZeros(fields, metrics) && WithZeros(fields, metrics)[name] == Number(0.0, "0")
    ensures name !in metrics ==> (name in WithZeros(fields, metrics) <==> name in fields)
    ensures name !in metrics && name in fields ==> WithZeros(fields, metrics)[name] == fields[name]
  {
    if metrics != [] {
      var n := |metrics| - 1;
      assert metrics == metrics[..n] + [metrics[n]];
      ZerosAt(fields, metrics[..n], name);
    }
  }

  lemma {:induction false} DimensionsAt(dimensions: seq<string>, values: seq<string>, i: nat)
    requires |dimensions| <= |values| && Distinct(dimensions) && i < |dimensions|
    ensures var fields := WithDimensions(map[], dimensions, values);
            dimensions[i] in fields && fields[dimensions[i]] == Text(values[i])
  {
    var n := |dimensions| - 1;
    if i < n {
      DimensionsAt(dimensions[..n], values[..n], i);
    }
  }

  /** A gap has zeros for all metrics, and its dimensions carry the values of the combination, which come back
      from the joined text exactly when none of them contains a bar. */
  lemma GapRow(date: Moment, row: Row, dimensions: seq<string>, metrics: seq<string>)
    requires dimensions != [] && Distinct(dimensions) && forall d | d in dimensions :: d !in metrics
    ensures |Split(Combo(row, dimensions))| >= |dimensions|
    ensures var gap := ZeroRow(date, dimensions, Split(Combo(row, dimensions)), metrics);
            && gap.date == date
            && (forall m | m in metrics :: m in gap.fields && gap.fields[m] == Number(0.0, "0"))
            && (DimensionTexts(gap, dimensions) == DimensionTexts(row, dimensions) <==> PlainRow(row, dimensions))
  {
    var texts := DimensionTexts(row, dimensions);
    SplitOfJoin(texts);
    var pieces := Split(Join(texts));
    var fields := WithDimensions(map[], dimensions, pieces);
    var gap := ZeroRow(date, dimensions, pieces, metrics);
    forall m | m in metrics ensures m in gap.fields && gap.fields[m] == Number(0.0, "0") {
      ZerosAt(fields, metrics, m);
    }
    forall i | 0 <= i < |dimensions| ensures DimensionTexts(gap, dimensions)[i] == pieces[..|dimensions|][i] {
      DimensionsAt(dimensions, pieces, i);
      ZerosAt(fields, metrics, dimensions[i]);
    }
    assert DimensionTexts(gap, dimensions) == pieces[..|dimensions|];
  }

  // ---------------------------------------------------------------- the theorem

  ghost function GapAt(place: Place, rows: map<string, Row>, dimensions: seq<string>, metrics: seq<string>, unit: Unit): seq<Row>
    requires Valid(place.date) && |dimensions| <= |Split(place.combo)|
  {
    if PlaceKey(place, dimensions, unit) in rows then [] else [ZeroRow(place.date, dimensions, Split(place.combo), metrics)]
  }

  /** The rows of zeros in the result. */
  ghost function GapRows(places: seq<Place>, rows: map<string, Row>, dimensions: seq<string>, metrics: seq<string>, unit: Unit): seq<Row>
    requires ValidPlaces(places, dimensions)
  {
    if places == [] then []
    else GapRows(places[..|places| - 1], rows, dimensions, metrics, unit) + GapAt(places[|places| - 1], rows, dimensions, metrics, unit)
  }

  lemma LastKey(places: seq<Place>, dimensions: seq<string>, unit: Unit)
    requires ValidPlaces(places, dimensions) && places != []
    ensures var n, keys := |places| - 1, PlaceKeys(places, dimensions, unit);
            keys[..n] == PlaceKeys(places[..n], dimensions, unit) && keys[n] == PlaceKey(places[n], dimensions, unit)
  {
  }

  lemma PlacePart(place: Place, rows: map<string, Row>, dimensions: seq<string>, metrics: seq<string>, unit: Unit, metric: string)
    requires Valid(place.date) && |dimensions| <= |Split(place.combo)|
    ensures var row, key := RowAt(place, rows, dimensions, metrics, unit), PlaceKey(place, dimensions, unit);
            && multiset([row]) == multiset(FoundAt(key, rows)) + multiset(GapAt(place, rows, dimensions, metrics, unit))
            && Value(row, metric) == Sum(FoundAt(key, rows), metric)
  {
    var key := PlaceKey(place, dimensions, unit);
    if key in rows {
      SumExtended([], rows[key], metric);
      assert [] + [rows[key]] == [rows[key]];
    } else {
      DimensionsAreText(dimensions, Split(place.combo));
      ZerosAreZero(WithDimensions(map[], dimensions, Split(place.combo)), metrics);
    }
  }

  /** The result is made of the rows found and the rows of zeros. */
  lemma {:induction false} ResultParts(places: seq<Place>, rows: map<string, Row>, dimensions: seq<string>,
                                       metrics: seq<string>, unit: Unit)
    requires ValidPlaces(places, dimensions)
    ensures multiset(RowsAt(places, rows, dimensions, metrics, unit))
            == multiset(Found(PlaceKeys(places, dimensions, unit), rows)) + multiset(GapRows(places, rows, dimensions, metrics, unit))
  {
    if places != [] {
      var n := |places| - 1;
      ResultParts(places[..n], rows, dimensions, metrics, unit);
      LastKey(places, dimensions, unit);
      PlacePart(places[n], rows, dimensions, metrics, unit, "");
      AddParts(RowsAt(places[..n], rows, dimensions, metrics, unit), Found(PlaceKeys(places[..n], dimensions, unit), rows),
               GapRows(places[..n], rows, dimensions, metrics, unit), [RowAt(places[n], rows, dimensions, metrics, unit)],
               FoundAt(PlaceKey(places[n], dimensions, unit), rows), GapAt(places[n], rows, dimensions, metrics, unit));
    }
  }

  lemma AddParts(all: seq<Row>, found: seq<Row>, gaps: seq<Row>, more: seq<Row>, moreFound: seq<Row>, moreGaps: seq<Row>)
    requires multiset(all) == multiset(found) + multiset(gaps) && multiset(more) == multiset(moreFound) + multiset(moreGaps)
    ensures multiset(all + more) == multiset(found + moreFound) + multiset(gaps + moreGaps)
  {
  }

  lemma {:induction false} ResultSum(places: seq<Place>, rows: map<string, Row>, dimensions: seq<string>,
                                     metrics: seq<string>, unit: Unit, metric: string)
    requires ValidPlaces(places, dimensions)
    ensures Sum(RowsAt(places, rows, dimensions, metrics, unit), metric) == Sum(Found(PlaceKeys(places, dimensions, unit), rows), metric)
  {
    if places != [] {
      var n, keys := |places| - 1, PlaceKeys(places, dimensions, unit);
      ResultSum(places[..n], rows, dimensions, metrics, unit, metric);
      LastKey(places, dimensions, unit);
      PlacePart(places[n], rows, dimensions, metrics, unit, metric);
      SumAdds(Found(keys[..n], rows), keys[n], rows, metric);
      SumExtended(RowsAt(places[..n], rows, dimensions, metrics, unit), RowAt(places[n], rows, dimensions, metrics, unit), metric);
    }
  }

  ghost predicate InRange(data: seq<Row>, first: int, last: int, unit: Unit) {
    forall i | 0 <= i < |data| :: first <= Index(data[i].date, unit) <= last
  }

  lemma KeysInGrid(dates: seq<Moment>, data: seq<Row>, dimensions: seq<string>, first: int, last: int, unit: Unit)
    requires Covers(dates, first, last, unit) && AreBuckets(dates, unit) && RowsInBuckets(data, unit)
    requires ValidPlaces(Places(dates, CombosFor(data, dimensions)), dimensions)
    ensures AllIn(RowKeys(data, dimensions, unit), PlaceKeys(Places(dates, CombosFor(data, dimensions)), dimensions, unit))
            <==> InRange(data, first, last, unit)
  {
    var keys := RowKeys(data, dimensions, unit);
    var all := PlaceKeys(Places(dates, CombosFor(data, dimensions)), dimensions, unit);
    forall i | 0 <= i < |data| ensures keys[i] in all <==> first <= Index(data[i].date, unit) <= last {
      RowInGrid(dates, data, dimensions, first, last, unit, i);
    }
  }

  /** Gap filling conserves data: the result is every input row once and otherwise rows of zeros, exactly when all
      rows lie in the range and no two have the same key; then the sum of every metric is unchanged. */
  lemma GapsFilled(dates: seq<Moment>, data: seq<Row>, dimensions: seq<string>, metrics: seq<string>, metric: string,
                   first: int, last: int, unit: Unit)
    requires Covers(dates, first, last, unit) && AreBuckets(dates, unit) && RowsInBuckets(data, unit)
    ensures ValidPlaces(Places(dates, CombosFor(data, dimensions)), dimensions)
    ensures var places, rows := Places(dates, CombosFor(data, dimensions)), LastRows(RowKeys(data, dimensions, unit), data);
            var result := RowsAt(places, rows, dimensions, metrics, unit);
            && (multiset(result) == multiset(data) + multiset(GapRows(places, rows, dimensions, metrics, unit))
                <==> InRange(data, first, last, unit) && Distinct(RowKeys(data, dimensions, unit)))
            && (InRange(data, first, last, unit) && Distinct(RowKeys(data, dimensions, unit)) ==> Sum(result, metric) == Sum(data, metric))
  {
    var combos := CombosFor(data, dimensions);
    GridValid(dates, data, dimensions);
    var places, keys := Places(dates, combos), RowKeys(data, dimensions, unit);
    var rows := LastRows(keys, data);
    CombosDistinct(data, dimensions);
    PlaceKeysDistinct(dates, combos, dimensions, first, last, unit);
    KeysInGrid(dates, data, dimensions, first, last, unit);
    ResultParts(places, rows, dimensions, metrics, unit);
    ResultSum(places, rows, dimensions, metrics, unit, metric);
    RowsFound(PlaceKeys(places, dimensions, unit), keys, data, metric);
    FoundIsData(Found(PlaceKeys(places, dimensions, unit), rows), data, GapRows(places, rows, dimensions, metrics, unit));
  }

  lemma FoundIsData(found: seq<Row>, data: seq<Row>, gaps: seq<Row>)
    ensures multiset(found) + multiset(gaps) == multiset(data) + multiset(gaps) <==> multiset(found) == multiset(data)
    ensures multiset(found) == multiset(data) ==> |found| == |data|
  {
    if multiset(found) == multiset(data) {
      assert |multiset(found)| == |found| && |multiset(data)| == |data|;
    }
    if multiset(found) + multiset(gaps) == multiset(data) + multiset(gaps) {
      forall r ensures multiset(found)[r] == multiset(data)[r] {
        assert (multiset(found) + multiset(gaps))[r] == (multiset(data) + multiset(gaps))[r];
      }
    }
  }

  /** With bars in the values, two rows of one bucket can fall under one key, and the first is lost. */
  lemma BarsMergeRows(date: Moment)
    requires Valid(date)
    ensures var a := Row(date, map["d" := Text("a|b"), "e" := Text("c")]);
            var b := Row(date, map["d" := Text("a"), "e" := Text("b|c")]);
            DimensionTexts(a, ["d", "e"]) != DimensionTexts(b, ["d", "e"])
            && RowKey(a, ["d", "e"], Day) == RowKey(b, ["d", "e"], Day)
  {
    var a := Row(date, map["d" := Text("a|b"), "e" := Text("c")]);
    var b := Row(date, map["d" := Text("a"), "e" := Text("b|c")]);
    assert DimensionTexts(a, ["d", "e"]) == ["a|b", "c"];
    assert DimensionTexts(b, ["d", "e"]) == ["a", "b|c"];
    assert Join(["a|b", "c"]) == "a|b" + "|" + Join(["c"]) && Join(["a", "b|c"]) == "a" + "|" + Join(["b|c"]);
    assert Join(["a|b", "c"]) == "a|b|c" == Join(["a", "b|c"]);
  }
}
