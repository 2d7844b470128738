/** The CSV printer of the explore report, and a reader of RFC 4180 (section 2) whose records end in a line feed. */
module CsvExport {
  import opened EventTable

  // ---------------------------------------------------------------- printing

  predicate NeedsQuotes(s: string) {
    exists i | 0 <= i < |s| :: s[i] == '"' || s[i] == ',' || s[i] == '\n' || s[i] == '\r'
  }

  /** `replace(/"/g, '""')`. */
  function Doubled(s: string): string {
    if s == [] then [] else (if s[0] == '"' then "\"\"" else [s[0]]) + Doubled(s[1..])
  }

  function EscapeCSVValue(s: string): string {
    if NeedsQuotes(s) then "\"" + Doubled(s) + "\"" else s
  }

  function PrintRecord(fields: seq<string>): string
    requires fields != []
  {
    if |fields| == 1 then EscapeCSVValue(fields[0]) else EscapeCSVValue(fields[0]) + "," + PrintRecord(fields[1..])
  }

  ghost predicate NonEmptyRecords(records: seq<seq<string>>) {
    forall i | 0 <= i < |records| :: records[i] != []
  }

  function PrintRecords(records: seq<seq<string>>): string
    requires records != [] && NonEmptyRecords(records)
  {
    if |records| == 1 then PrintRecord(records[0]) else PrintRecord(records[0]) + "\n" + PrintRecords(records[1..])
  }

  // ---------------------------------------------------------------- reading

  /** A field and the text after it. */
  type Read = Option<(string, string)>

  predicate EndsField(s: string) {
    s == [] || s[0] == ',' || s[0] == '\n'
  }

  /** The text up to the closing quote; a doubled quote stands for one. */
  function ReadQuoted(field: string, s: string): (r: Read)
    ensures r.Some? ==> |r.value.1| < |s|
    decreases |s|
  {
    if s == [] then None
    else if s[0] != '"' then ReadQuoted(field + [s[0]], s[1..])
    else if |s| > 1 && s[1] == '"' then ReadQuoted(field + "\"", s[2..])
    else Some((field, s[1..]))
  }

  /** Quotes and carriage returns may not occur outside quotes. */
  function ReadPlain(field: string, s: string): (r: Read)
    ensures r.Some? ==> |r.value.1| <= |s|
    decreases |s|
  {
    if EndsField(s) then Some((field, s))
    else if s[0] == '"' || s[0] == '\r' then None
    else ReadPlain(field + [s[0]], s[1..])
  }

  function ReadField(s: string): (r: Read)
    ensures r.Some? ==> |r.value.1| <= |s|
  {
    if s != [] && s[0] == '"' then ReadQuoted("", s[1..]) else ReadPlain("", s)
  }

  /** Reads on after these records and these fields of the current one. The last record may or may not have a line
      break of its own. */
  function ReadRecords(records: seq<seq<string>>, fields: seq<string>, s: string): Option<seq<seq<string>>>
    decreases |s|
  {
    var read := ReadField(s);
    if read.None? then None
    else
      var (field, rest) := read.value;
      if rest == [] then Some(records + [fields + [field]])
      else if rest[0] == ',' then ReadRecords(records, fields + [field], rest[1..])
      else if rest[0] != '\n' then None
      else if rest[1..] == [] then Some(records + [fields + [field]])
      else ReadRecords(records + [fields + [field]], [], rest[1..])
  }

  function Parse(s: string): Option<seq<seq<string>>> {
    ReadRecords([], [], s)
  }

  // ---------------------------------------------------------------- round trip

  lemma {:induction false} QuotedRoundTrip(field: string, s: string, rest: string)
    requires EndsField(rest)
    ensures ReadQuoted(field, Doubled(s) + "\"" + rest) == Some((field + s, rest))
    decreases |s|
  {
    var text := Doubled(s) + "\"" + rest;
    if s == [] {
      assert text == "\"" + rest;
      assert text[1..] == rest && field + s == field;
    } else {
      QuotedRoundTrip(field + [s[0]], s[1..], rest);
      assert field + [s[0]] + s[1..] == field + s;
      if s[0] == '"' {
        assert text == "\"\"" + (Doubled(s[1..]) + "\"" + rest);
        assert text[2..] == Doubled(s[1..]) + "\"" + rest;
      } else {
        assert text == [s[0]] + (Doubled(s[1..]) + "\"" + rest);
        assert text[1..] == Doubled(s[1..]) + "\"" + rest;
      }
    }
  }

  lemma {:induction false} PlainRoundTrip(field: string, s: string, rest: string)
    requires EndsField(rest) && !NeedsQuotes(s)
    ensures ReadPlain(field, s + rest) == Some((field + s, rest))
    decreases |s|
  {
    if s == [] {
      assert s + rest == rest && field + s == field;
    } else {
      assert (s + rest)[0] == s[0] && (s + rest)[1..] == s[1..] + rest;
      assert forall i | 0 <= i < |s[1..]| :: s[1..][i] == s[i + 1];
      PlainRoundTrip(field + [s[0]], s[1..], rest);
      assert field + [s[0]] + s[1..] == field + s;
    }
  }

  lemma QuotedField(s: string, rest: string)
    requires EndsField(rest)
    ensures ReadField("\"" + Doubled(s) + "\"" + rest) == Some((s, rest))
  {
    var inner := Doubled(s) + "\"" + rest;
    var text := "\"" + Doubled(s) + "\"" + rest;
    assert text == "\"" + inner;
    assert text[0] == '"' && text[1..] == inner;
    QuotedRoundTrip("", s, rest);
    assert "" + s == s;
  }

  lemma PlainField(s: string, rest: string)
    requires EndsField(rest) && !NeedsQuotes(s)
    ensures ReadField(s + rest) == Some((s, rest))
  {
    PlainRoundTrip("", s, rest);
    assert "" + s == s;
    if s != [] { assert (s + rest)[0] == s[0]; } else { assert s + rest == rest; }
  }

  /** A printed value reads back as the value, whatever characters it has. */
  lemma FieldRoundTrip(s: string, rest: string)
    requires EndsField(rest)
    ensures ReadField(EscapeCSVValue(s) + rest) == Some((s, rest))
  {
    if NeedsQuotes(s) {
      QuotedField(s, rest);
    } else {
      PlainField(s, rest);
    }
  }

  predicate EndsRecord(s: string) {
    s == [] || s[0] == '\n'
  }

  /** How the reader goes on when it has read a record and sees this text. */
  function AfterRecord(records: seq<seq<string>>, rest: string): Option<seq<seq<string>>> {
    if rest == [] || rest[1..] == [] then Some(records) else ReadRecords(records, [], rest[1..])
  }

  lemma AtComma(records: seq<seq<string>>, before: seq<string>, field: string, tail: string)
    ensures ReadRecords(records, before, EscapeCSVValue(field) + ("," + tail)) == ReadRecords(records, before + [field], tail)
  {
    FieldRoundTrip(field, "," + tail);
    assert ("," + tail)[1..] == tail;
  }

  lemma AtRecordEnd(records: seq<seq<string>>, before: seq<string>, field: string, rest: string)
    requires EndsRecord(rest)
    ensures ReadRecords(records, before, EscapeCSVValue(field) + rest) == AfterRecord(records + [before + [field]], rest)
  {
    FieldRoundTrip(field, rest);
  }

  lemma {:induction false} RecordRoundTrip(records: seq<seq<string>>, before: seq<string>, fields: seq<string>, rest: string)
    requires fields != [] && EndsRecord(rest)
    ensures ReadRecords(records, before, PrintRecord(fields) + rest) == AfterRecord(records + [before + fields], rest)
    decreases |fields|
  {
    if |fields| == 1 {
      AtRecordEnd(records, before, fields[0], rest);
      assert fields == [fields[0]];
    } else {
      var tail := PrintRecord(fields[1..]) + rest;
      assert PrintRecord(fields) + rest == EscapeCSVValue(fields[0]) + ("," + tail);
      AtComma(records, before, fields[0], tail);
      RecordRoundTrip(records, before + [fields[0]], fields[1..], rest);
      assert before + [fields[0]] + fields[1..] == before + fields;
    }
  }

  lemma {:induction false} PrintedNothing(records: seq<seq<string>>)
    requires records != [] && NonEmptyRecords(records)
    ensures PrintRecords(records) == [] <==> records == [[""]]
  {
    if |records| == 1 {
      assert records == [records[0]];
      if |records[0]| == 1 { assert records[0] == [records[0][0]]; }
    }
  }

  /** The text has lost the last record: it is a single empty field and not alone. */
  ghost predicate EndsInEmptyRecord(records: seq<seq<string>>) {
    |records| > 1 && records[|records| - 1] == [""]
  }

  ghost function Kept(records: seq<seq<string>>): seq<seq<string>> {
    if EndsInEmptyRecord(records) then records[..|records| - 1] else records
  }

  lemma KeptTail(records: seq<seq<string>>)
    requires |records| > 1
    ensures Kept(records) == [records[0]] + if records[1..] == [[""]] then [] else Kept(records[1..])
  {
    var rest := records[1..];
    assert records == [records[0]] + rest && rest[|rest| - 1] == records[|records| - 1];
    assert records[..|records| - 1] == [records[0]] + rest[..|rest| - 1];
    if |rest| == 1 { assert rest == [rest[0]]; }
  }

  lemma {:induction false} RecordsRoundTrip(before: seq<seq<string>>, records: seq<seq<string>>)
    requires records != [] && NonEmptyRecords(records)
    ensures ReadRecords(before, [], PrintRecords(records)) == Some(before + Kept(records))
    decreases |records|
  {
    assert [] + records[0] == records[0];
    if |records| == 1 {
      RecordRoundTrip(before, [], records[0], "");
      assert PrintRecord(records[0]) + "" == PrintRecords(records);
      assert records == [records[0]];
    } else {
      var rest, more := records[1..], PrintRecords(records[1..]);
      RecordRoundTrip(before, [], records[0], "\n" + more);
      assert PrintRecord(records[0]) + ("\n" + more) == PrintRecords(records);
      assert ("\n" + more)[1..] == more;
      PrintedNothing(rest);
      KeptTail(records);
      if rest != [[""]] {
        RecordsRoundTrip(before + [records[0]], rest);
        assert before + [records[0]] + Kept(rest) == before + ([records[0]] + Kept(rest));
      } else {
        assert Kept(records) == [records[0]];
      }
    }
  }

  /** CSV round trip: the reader recovers exactly the records, whatever their characters, unless the last of
      several is one empty field: its text is indistinguishable from a final line break. */
  lemma CsvRoundTrip(records: seq<seq<string>>)
    requires records != [] && NonEmptyRecords(records)
    ensures Parse(PrintRecords(records)) == Some(records) <==> !EndsInEmptyRecord(records)
  {
    RecordsRoundTrip([], records);
    assert [] + Kept(records) == Kept(records);
  }

  // ---------------------------------------------------------------- the report

  /** What a column of a result row holds. */
  datatype Value = Missing | Null | Number(number: real) | Text(text: string)

  type ReportRow = map<string, Value>

  function At(row: ReportRow, column: string): Value {
    if column in row then row[column] else Missing
  }

  datatype Num = NaN | Finite(value: real)

  /** How JavaScript prints numbers and reads them: `String`, `toFixed(2)`, `formatDuration` and `Number`. */
  datatype Rendering = Rendering(text: Num -> string, fixed2: Num -> string, duration: Num -> string, read: string -> Num)

  function ToNumber(v: Value, js: Rendering): Num {
    match v
    case Missing => NaN
    case Null => Finite(0.0)
    case Number(x) => Finite(x)
    case Text(t) => js.read(t)
  }

  /** `Number(v) || 0`. */
  function OrZero(v: Value, js: Rendering): real {
    match ToNumber(v, js)
    case NaN => 0.0
    case Finite(x) => x
  }

  function DimensionValue(v: Value, js: Rendering): string {
    match v
    case Missing => "(empty)"
    case Null => "(empty)"
    case Number(x) => js.text(Finite(x))
    case Text(t) => if t == "" then "(empty)" else t
  }

  const NUMBER_HEADERS: seq<string> :=
    ["Sessions", "Sessions (%)", "TimeScore", "TimeScore (seconds)", "Bounce Rate (%)", "Median Scroll Depth (%)"]

  const COMPARISON_HEADERS: seq<string> :=
    ["Sessions (Previous)", "Sessions (Change %)", "TimeScore (Previous)", "TimeScore (Change %)",
     "Bounce Rate (Previous)", "Bounce Rate (Change %)", "Median Scroll Depth (Previous)", "Median Scroll Depth (Change %)"]

  /** Labels of the dimensions, the headers of the six numbers, and with a comparison eight further ones. */
  ghost predicate IsHeader(headers: seq<string>, dimensions: seq<string>, showComparison: bool, getDimensionLabel: string -> string) {
    var d := |dimensions|;
    && |headers| == d + 6 + (if showComparison then 8 else 0)
    && (forall i | 0 <= i < d :: headers[i] == getDimensionLabel(dimensions[i]))
    && headers[d..d + 6] == NUMBER_HEADERS
    && (showComparison ==> headers[d + 6..] == COMPARISON_HEADERS)
  }

  method GenerateCSVHeaders(dimensions: seq<string>, showComparison: bool, getDimensionLabel: string -> string)
    returns (headers: seq<string>)
    ensures IsHeader(headers, dimensions, showComparison, getDimensionLabel)
  {
    headers := seq(|dimensions|, i requires 0 <= i < |dimensions| => getDimensionLabel(dimensions[i])) + NUMBER_HEADERS;
    if showComparison {
      headers := headers + COMPARISON_HEADERS;
    }
  }

  /** The columns of the comparison headers, with how their numbers are printed. */
  function ComparisonColumns(js: Rendering): seq<(string, Num -> string)> {
    [("sessions_prev", js.text), ("sessions_change", js.fixed2),
     ("median_duration_prev", js.duration), ("median_duration_change", js.fixed2),
     ("bounce_rate_prev", js.fixed2), ("bounce_rate_change", js.fixed2),
     ("median_scroll_prev", js.fixed2), ("median_scroll_change", js.fixed2)]
  }

  /** A missing value is left blank; null is the number 0. */
  function Blankable(v: Value, shown: Num -> string, js: Rendering): string {
    if v == Missing then "" else shown(ToNumber(v, js))
  }

  /** The share of all sessions in percent, and 0 when there are none. */
  function SessionPercent(sessions: real, totalSessions: real, js: Rendering): string {
    if totalSessions > 0.0 then js.fixed2(Finite(sessions / totalSessions * 100.0)) else "0"
  }

  /** The values under the headers: dimensions, six numbers of which an unknown one is 0, and with a comparison the eight
      further ones. */
  ghost predicate IsRowOf(values: seq<string>, row: ReportRow, dimensions: seq<string>, totalSessions: real,
                          showComparison: bool, js: Rendering) {
    var d, duration := |dimensions|, Finite(OrZero(At(row, "median_duration"), js));
    && |values| == d + 6 + (if showComparison then 8 else 0)
    && (forall i | 0 <= i < d :: values[i] == DimensionValue(At(row, dimensions[i]), js))
    && values[d] == js.text(Finite(OrZero(At(row, "sessions"), js)))
    && values[d + 1] == SessionPercent(OrZero(At(row, "sessions"), js), totalSessions, js)
    && values[d + 2] == js.duration(duration) && values[d + 3] == js.fixed2(duration)
    && values[d + 4] == js.fixed2(Finite(OrZero(At(row, "bounce_rate"), js)))
    && values[d + 5] == js.fixed2(Finite(OrZero(At(row, "median_scroll"), js)))
    && (showComparison ==> forall i | 0 <= i < 8 ::
          values[d + 6 + i] == Blankable(At(row, ComparisonColumns(js)[i].0), ComparisonColumns(js)[i].1, js))
  }

  method RowToCSVValues(row: ReportRow, dimensions: seq<string>, totalSessions: real, showComparison: bool, js: Rendering)
    returns (values: seq<string>)
    ensures IsRowOf(values, row, dimensions, totalSessions, showComparison, js)
  {
    var sessions := OrZero(At(row, "sessions"), js);
    var medianDuration := OrZero(At(row, "median_duration"), js);
    var bounceRate := OrZero(At(row, "bounce_rate"), js);
    var medianScroll := OrZero(At(row, "median_scroll"), js);
    var dimensionValues := seq(|dimensions|, i requires 0 <= i < |dimensions| => DimensionValue(At(row, dimensions[i]), js));
    values := dimensionValues
              + [js.text(Finite(sessions)), SessionPercent(sessions, totalSessions, js), js.duration(Finite(medianDuration)),
                 js.fixed2(Finite(medianDuration)), js.fixed2(Finite(bounceRate)), js.fixed2(Finite(medianScroll))];
    if showComparison {
      var further :=
        [Blankable(At(row, "sessions_prev"), js.text, js), Blankable(At(row, "sessions_change"), js.fixed2, js),
         Blankable(At(row, "median_duration_prev"), js.duration, js), Blankable(At(row, "median_duration_change"), js.fixed2, js),
         Blankable(At(row, "bounce_rate_prev"), js.fixed2, js), Blankable(At(row, "bounce_rate_change"), js.fixed2, js),
         Blankable(At(row, "median_scroll_prev"), js.fixed2, js), Blankable(At(row, "median_scroll_change"), js.fixed2, js)];
      assert forall i | 0 <= i < 8 :: further[i] == Blankable(At(row, ComparisonColumns(js)[i].0), ComparisonColumns(js)[i].1, js);
      assert forall i | 0 <= i < 8 :: (values + further)[|dimensions| + 6 + i] == further[i];
      values := values + further;
    }
  }

  /** What a fixed header promises of a row. */
  ghost predicate IsValueUnder(header: string, value: string, row: ReportRow, totalSessions: real, js: Rendering) {
    if header == "Sessions" then value == js.text(Finite(OrZero(At(row, "sessions"), js)))
    else if header == "Sessions (%)" then value == SessionPercent(OrZero(At(row, "sessions"), js), totalSessions, js)
    else if header == "TimeScore" then value == js.duration(Finite(OrZero(At(row, "median_duration"), js)))
    else if header == "TimeScore (seconds)" then value == js.fixed2(Finite(OrZero(At(row, "median_duration"), js)))
    else if header == "Bounce Rate (%)" then value == js.fixed2(Finite(OrZero(At(row, "bounce_rate"), js)))
    else if header == "Median Scroll Depth (%)" then value == js.fixed2(Finite(OrZero(At(row, "median_scroll"), js)))
    else if header == "Sessions (Previous)" then value == Blankable(At(row, "sessions_prev"), js.text, js)
    else if header == "Sessions (Change %)" then value == Blankable(At(row, "sessions_change"), js.fixed2, js)
    else if header == "TimeScore (Previous)" then value == Blankable(At(row, "median_duration_prev"), js.duration, js)
    else if header == "TimeScore (Change %)" then value == Blankable(At(row, "median_duration_change"), js.fixed2, js)
    else if header == "Bounce Rate (Previous)" then value == Blankable(At(row, "bounce_rate_prev"), js.fixed2, js)
    else if header == "Bounce Rate (Change %)" then value == Blankable(At(row, "bounce_rate_change"), js.fixed2, js)
    else if header == "Median Scroll Depth (Previous)" then value == Blankable(At(row, "median_scroll_prev"), js.fixed2, js)
    else header == "Median Scroll Depth (Change %)" && value == Blankable(At(row, "median_scroll_change"), js.fixed2, js)
  }

  /** Every value of a row stands under the header that promises it. */
  lemma ValuesMatchHeaders(headers: seq<string>, values: seq<string>, row: ReportRow, dimensions: seq<string>, totalSessions: real,
                           showComparison: bool, getDimensionLabel: string -> string, js: Rendering, i: nat)
    requires IsHeader(headers, dimensions, showComparison, getDimensionLabel)
    requires IsRowOf(values, row, dimensions, totalSessions, showComparison, js) && i < |values|
    ensures |values| == |headers|
    ensures i < |dimensions| ==> headers[i] == getDimensionLabel(dimensions[i]) && values[i] == DimensionValue(At(row, dimensions[i]), js)
    ensures i >= |dimensions| ==> IsValueUnder(headers[i], values[i], row, totalSessions, js)
  {
    var d := |dimensions|;
    if d <= i < d + 6 {
      assert headers[i] == headers[d..d + 6][i - d] == NUMBER_HEADERS[i - d];
      NumberHeadersDiffer(i - d);
    } else if i >= d + 6 {
      var c := i - d - 6;
      assert headers[i] == headers[d + 6..][c] == COMPARISON_HEADERS[c];
      assert values[d + 6 + c] == Blankable(At(row, ComparisonColumns(js)[c].0), ComparisonColumns(js)[c].1, js);
      ComparisonHeadersDiffer(c);
    }
  }

  lemma NumberHeadersDiffer(i: nat)
    requires i < 6
    ensures forall j | 0 <= j < i :: NUMBER_HEADERS[j] != NUMBER_HEADERS[i]
  {
    assert |"Sessions"| == 8 && |"Sessions (%)"| == 12 && |"TimeScore"| == 9 && |"TimeScore (seconds)"| == 19
           && |"Bounce Rate (%)"| == 15 && |"Median Scroll Depth (%)"| == 23;
  }

  lemma ComparisonHeadersDiffer(i: nat)
    requires i < 8
    ensures forall j | 0 <= j < 6 :: NUMBER_HEADERS[j] != COMPARISON_HEADERS[i]
    ensures forall j | 0 <= j < i :: COMPARISON_HEADERS[j] != COMPARISON_HEADERS[i]
  {
    assert "Sessions (Previous)"[0] == 'S' && "TimeScore (seconds)"[0] == 'T';
    assert |"Sessions (Previous)"| == 19 && |"Sessions (Change %)"| == 19 && "Sessions (Previous)"[10] == 'P' && "Sessions (Change %)"[10] == 'C';
    assert |"TimeScore (Previous)"| == 20 && |"TimeScore (Change %)"| == 20 && "TimeScore (Previous)"[11] == 'P' && "TimeScore (Change %)"[11] == 'C';
    assert |"Bounce Rate (Previous)"| == 22 && |"Bounce Rate (Change %)"| == 22 && "Bounce Rate (Previous)"[13] == 'P' && "Bounce Rate (Change %)"[13] == 'C';
    assert |"Median Scroll Depth (Previous)"| == 30 && |"Median Scroll Depth (Change %)"| == 30
           && "Median Scroll Depth (Previous)"[21] == 'P' && "Median Scroll Depth (Change %)"[21] == 'C';
  }

  ghost predicate SameWidth(records: seq<seq<string>>, width: nat) {
    forall i | 0 <= i < |records| :: |records[i]| == width
  }

  /** Headers and one record for each row, every one with as many fields as there are headers. */
  ghost predicate IsReport(records: seq<seq<string>>, rows: seq<ReportRow>, dimensions: seq<string>, totalSessions: real,
                           showComparison: bool, getDimensionLabel: string -> string, js: Rendering) {
    && |records| == |rows| + 1
    && IsHeader(records[0], dimensions, showComparison, getDimensionLabel)
    && (forall i | 0 <= i < |rows| :: IsRowOf(records[i + 1], rows[i], dimensions, totalSessions, showComparison, js))
    && SameWidth(records, |records[0]|)
  }

  method GenerateRecords(rows: seq<ReportRow>, dimensions: seq<string>, totalSessions: real, showComparison: bool,
                         getDimensionLabel: string -> string, js: Rendering)
    returns (records: seq<seq<string>>)
    ensures IsReport(records, rows, dimensions, totalSessions, showComparison, getDimensionLabel, js)
  {
    var headers := GenerateCSVHeaders(dimensions, showComparison, getDimensionLabel);
    records := [headers];
    for i := 0 to |rows|
      invariant |records| == i + 1 && records[0] == headers && SameWidth(records, |headers|)
      invariant forall j | 0 <= j < i :: IsRowOf(records[j + 1], rows[j], dimensions, totalSessions, showComparison, js)
    {
      var rowValues := RowToCSVValues(rows[i], dimensions, totalSessions, showComparison, js);
      records := records + [rowValues];
    }
  }

  lemma ReportIsPrintable(records: seq<seq<string>>, rows: seq<ReportRow>, dimensions: seq<string>, totalSessions: real,
                          showComparison: bool, getDimensionLabel: string -> string, js: Rendering)
    requires IsReport(records, rows, dimensions, totalSessions, showComparison, getDimensionLabel, js)
    ensures records != [] && NonEmptyRecords(records) && !EndsInEmptyRecord(records)
  {
  }

  /** The whole text: a reader gets back the report's headers and rows. */
  method GenerateCSV(rows: seq<ReportRow>, dimensions: seq<string>, totalSessions: real, showComparison: bool,
                     getDimensionLabel: string -> string, js: Rendering)
    returns (csv: string)
    ensures Parse(csv).Some? && IsReport(Parse(csv).value, rows, dimensions, totalSessions, showComparison, getDimensionLabel, js)
  {
    var records := GenerateRecords(rows, dimensions, totalSessions, showComparison, getDimensionLabel, js);
    ReportIsPrintable(records, rows, dimensions, totalSessions, showComparison, getDimensionLabel, js);
    csv := PrintRecords(records);
    CsvRoundTrip(records);
  }
}
