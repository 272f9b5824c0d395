/**
 * The dashboard's CSV report (`exportCsv` in
 * src/components/dashboard/Tabs.tsx): a header line and one data line of
 * ten fields, every field quoted with inner quotes doubled as in rule 7 of
 * section 2 of RFC 4180. The reader below reads back what the writer
 * writes: it follows the same rules and recovers exactly the fields that
 * were written, even from fields holding quotes, commas or line breaks.
 */
module CsvExport {
  import opened Types
  import opened Decimal
  import opened Dashboard

  // ---------------------------------------------------------------------
  // Writing
  // ---------------------------------------------------------------------

  /** `s.replace(/"/g, '""')`. */
  function DoubleQuotes(s: string): string
  {
    if s == [] then []
    else (if s[0] == '"' then "\"\"" else [s[0]]) + DoubleQuotes(s[1..])
  }

  /** `escapeCsv`: the value in double quotes, inner quotes doubled. */
  function EscapeCsv(v: string): (r: string)
    ensures |r| >= 2 && r[0] == '"' && r[|r| - 1] == '"'
  {
    "\"" + DoubleQuotes(v) + "\""
  }

  /** `fields.map(escapeCsv)`. */
  function EscapeAll(fields: seq<string>): (r: seq<string>)
    ensures |r| == |fields|
  {
    if fields == [] then [] else [EscapeCsv(fields[0])] + EscapeAll(fields[1..])
  }

  /** `parts.join(sep)`. */
  function Join(parts: seq<string>, sep: string): string
  {
    if |parts| == 0 then []
    else if |parts| == 1 then parts[0]
    else parts[0] + sep + Join(parts[1..], sep)
  }

  /** One CSV line: the escaped fields joined by commas. */
  function CsvLine(fields: seq<string>): string
  {
    Join(EscapeAll(fields), ",")
  }

  /** Every record as a CSV line. */
  function CsvLines(records: seq<seq<string>>): (r: seq<string>)
    ensures |r| == |records|
  {
    if records == [] then [] else [CsvLine(records[0])] + CsvLines(records[1..])
  }

  /** The lines joined by "\n". */
  function CsvText(records: seq<seq<string>>): string
  {
    Join(CsvLines(records), "\n")
  }

  // ---------------------------------------------------------------------
  // Reading
  // ---------------------------------------------------------------------

  /**
   * Reads the inside of a quoted field up to its closing quote, collapsing
   * each `""` to `"`; gives the field and what follows the closing quote.
   */
  function ReadQuoted(s: string): (r: Option<(string, string)>)
    ensures r.Some? ==> |r.value.1| < |s|
    decreases |s|
  {
    if s == [] then None
    else if s[0] == '"' then
      if |s| >= 2 && s[1] == '"' then
        match ReadQuoted(s[2..])
        case None => None
        case Some((v, rest)) => Some((['"'] + v, rest))
      else Some(([], s[1..]))
    else
      match ReadQuoted(s[1..])
      case None => None
      case Some((v, rest)) => Some(([s[0]] + v, rest))
  }

  /** Reads one quoted field. */
  function Unescape(s: string): Option<string>
  {
    if s == [] || s[0] != '"' then None
    else match ReadQuoted(s[1..])
      case Some((v, rest)) => if rest == [] then Some(v) else None
      case None => None
  }

  /** Reads the comma-separated quoted fields of one line; gives them and what follows. */
  function ParseFields(s: string): (r: Option<(seq<string>, string)>)
    ensures r.Some? ==> |r.value.1| < |s|
    decreases |s|
  {
    if s == [] || s[0] != '"' then None
    else match ReadQuoted(s[1..])
      case None => None
      case Some((v, rest)) =>
        if |rest| > 0 && rest[0] == ',' then
          match ParseFields(rest[1..])
          case None => None
          case Some((vs, rest')) => Some(([v] + vs, rest'))
        else Some(([v], rest))
  }

  /** Reads a whole CSV text of quoted fields into its records. */
  function ParseCsv(s: string): Option<seq<seq<string>>>
    decreases |s|
  {
    match ParseFields(s)
    case None => None
    case Some((fields, rest)) =>
      if rest == [] then Some([fields])
      else if rest[0] == '\n' then
        match ParseCsv(rest[1..])
        case None => None
        case Some(records) => Some([fields] + records)
      else None
  }

  // ---------------------------------------------------------------------
  // Round trips
  // ---------------------------------------------------------------------

  /** The reader undoes the quote doubling and stops at the closing quote. */
  lemma {:induction false} ReadQuotedEscaped(v: string, rest: string)
    requires rest == [] || rest[0] != '"'
    ensures ReadQuoted(DoubleQuotes(v) + "\"" + rest) == Some((v, rest))
  {
    var s := DoubleQuotes(v) + "\"" + rest;
    if v == [] {
      assert s == "\"" + rest;
      assert s[1..] == rest;
    } else {
      var t := DoubleQuotes(v[1..]) + "\"" + rest;
      ReadQuotedEscaped(v[1..], rest);
      if v[0] == '"' {
        assert s == "\"\"" + t;
        assert s[2..] == t;
        assert ['"'] + v[1..] == v;
      } else {
        assert s == [v[0]] + t;
        assert s[1..] == t;
        assert [v[0]] + v[1..] == v;
      }
    }
  }

  /** Rule 7 round trip: reading an escaped value gives the value back. */
  lemma EscapeRoundTrip(v: string)
    ensures Unescape(EscapeCsv(v)) == Some(v)
  {
    ReadQuotedEscaped(v, []);
    assert EscapeCsv(v)[1..] == DoubleQuotes(v) + "\"" + [];
  }

  /** Different values are written differently. */
  lemma EscapeInjective(v: string, w: string)
    requires v != w
    ensures EscapeCsv(v) != EscapeCsv(w)
  {
    EscapeRoundTrip(v);
    EscapeRoundTrip(w);
  }

  /** The last field of a line reads back on its own. */
  lemma LastFieldReadsBack(v: string, rest: string)
    requires rest == [] || rest[0] == '\n'
    ensures ParseFields(EscapeCsv(v) + rest) == Some(([v], rest))
  {
    var s := EscapeCsv(v) + rest;
    assert s[1..] == DoubleQuotes(v) + "\"" + rest;
    ReadQuotedEscaped(v, rest);
  }

  /** A field followed by a comma reads back ahead of the fields after the comma. */
  lemma NextFieldReadsBack(v: string, tail: string, vs: seq<string>, rest: string)
    requires ParseFields(tail) == Some((vs, rest))
    ensures ParseFields(EscapeCsv(v) + "," + tail) == Some(([v] + vs, rest))
  {
    var after := "," + tail;
    var s := EscapeCsv(v) + after;
    assert s[1..] == DoubleQuotes(v) + "\"" + after;
    ReadQuotedEscaped(v, after);
    assert s[0] == '"' && after[0] == ',' && after[1..] == tail;
    assert ReadQuoted(s[1..]) == Some((v, after));
    assert EscapeCsv(v) + "," + tail == s;
  }

  /** A line of two or more fields is the first escaped field, a comma and the rest of the line. */
  lemma CsvLineCons(fields: seq<string>, rest: string)
    requires |fields| >= 2
    ensures CsvLine(fields) + rest == EscapeCsv(fields[0]) + "," + (CsvLine(fields[1..]) + rest)
  {
    var e := EscapeAll(fields);
    assert e[0] == EscapeCsv(fields[0]);
    assert e[1..] == EscapeAll(fields[1..]);
    assert CsvLine(fields) == EscapeCsv(fields[0]) + "," + CsvLine(fields[1..]);
  }

  /** A line of one field is that field escaped. */
  lemma CsvLineSingle(fields: seq<string>)
    requires |fields| == 1
    ensures CsvLine(fields) == EscapeCsv(fields[0])
  {
    assert EscapeAll(fields) == [EscapeCsv(fields[0])];
  }

  /** A line followed by nothing or a line break reads back as its fields. */
  lemma {:induction false} ParseFieldsOfLine(fields: seq<string>, rest: string)
    requires |fields| >= 1
    requires rest == [] || rest[0] == '\n'
    ensures ParseFields(CsvLine(fields) + rest) == Some((fields, rest))
  {
    if |fields| == 1 {
      CsvLineSingle(fields);
      LastFieldReadsBack(fields[0], rest);
      assert [fields[0]] == fields;
    } else {
      var tail := fields[1..];
      CsvLineCons(fields, rest);
      ParseFieldsOfLine(tail, rest);
      NextFieldReadsBack(fields[0], CsvLine(tail) + rest, tail, rest);
      assert [fields[0]] + tail == fields;
    }
  }

  /** A CSV text of non-empty records reads back as exactly those records. */
  lemma {:induction false} CsvRoundTrip(records: seq<seq<string>>)
    requires |records| >= 1
    requires forall i :: 0 <= i < |records| ==> |records[i]| >= 1
    ensures ParseCsv(CsvText(records)) == Some(records)
  {
    var lines := CsvLines(records);
    assert lines[0] == CsvLine(records[0]);
    if |records| == 1 {
      assert CsvText(records) == CsvLine(records[0]) + [];
      ParseFieldsOfLine(records[0], []);
      assert [records[0]] == records;
    } else {
      var tail := records[1..];
      assert lines[1..] == CsvLines(tail);
      var after := "\n" + CsvText(tail);
      assert CsvText(records) == CsvLine(records[0]) + after;
      ParseFieldsOfLine(records[0], after);
      assert after[1..] == CsvText(tail);
      CsvRoundTrip(tail);
      assert [records[0]] + tail == records;
    }
  }

  // ---------------------------------------------------------------------
  // The report
  // ---------------------------------------------------------------------

  const Headers: seq<string> := [
    "Origin", "Destination", "Distance (mi)", "Duration (min)", "MPG",
    "Diesel ($/gal)", "Gallons", "Fuel Cost ($)", "CO2 (kg)", "Cost/mi ($)"
  ]

  /**
   * The data line: the place names as typed, then the trip and its costs,
   * each number printed by `toFixed`; one field per header.
   */
  function ReportRow(origin: string, destination: string, route: RouteResponse, mpg: real, c: TripCosts): (row: seq<string>)
    ensures |row| == |Headers|
  {
    [ origin, destination,
      FormatFixed(route.distanceMi, 1), FormatFixed(route.durationMin, 0),
      FormatFixed(mpg, 2), FormatFixed(c.price, 2), FormatFixed(c.gallons, 2),
      FormatFixed(c.fuelCost, 2), FormatFixed(c.co2Kg, 2), FormatFixed(c.costPerMile, 3) ]
  }

  /** The report text: the header line, a line break and the data line. */
  function Report(origin: string, destination: string, route: RouteResponse, mpg: real, c: TripCosts): string
  {
    Join([CsvLine(Headers), CsvLine(ReportRow(origin, destination, route, mpg, c))], "\n")
  }

  /** `exportCsv`: nothing without a route, otherwise the two-line report. */
  function ExportCsv(origin: string, destination: string, route: Option<RouteResponse>, mpg: real,
                     userPrice: Option<real>, fuel: Option<FuelPriceResponse>): Option<string>
    requires mpg != 0.0
    requires route.Some? ==> route.value.distanceMi != 0.0
  {
    if route.None? then None
    else Some(Report(origin, destination, route.value, mpg, Costs(route, mpg, userPrice, fuel)))
  }

  /** A header line and a data line read back as those two records. */
  lemma TwoLinesReadBack(header: seq<string>, row: seq<string>)
    requires |header| >= 1 && |row| >= 1
    ensures ParseCsv(Join([CsvLine(header), CsvLine(row)], "\n")) == Some([header, row])
  {
    var records := [header, row];
    assert records[1..] == [row];
    assert CsvLines([row]) == [CsvLine(row)];
    assert CsvLines(records) == [CsvLine(header), CsvLine(row)];
    CsvRoundTrip(records);
  }

  /** The report reads back as the headers and the data line, whatever the place names hold. */
  lemma ReportReadsBack(origin: string, destination: string, route: RouteResponse, mpg: real, c: TripCosts)
    ensures ParseCsv(Report(origin, destination, route, mpg, c)) == Some([Headers, ReportRow(origin, destination, route, mpg, c)])
  {
    TwoLinesReadBack(Headers, ReportRow(origin, destination, route, mpg, c));
  }

  /** `exportCsv` gives the report of the trip's figures exactly when there is a route. */
  lemma ExportCsvIsReport(origin: string, destination: string, route: Option<RouteResponse>, mpg: real,
                          userPrice: Option<real>, fuel: Option<FuelPriceResponse>)
    requires mpg != 0.0
    requires route.Some? ==> route.value.distanceMi != 0.0
    ensures route.None? <==> ExportCsv(origin, destination, route, mpg, userPrice, fuel).None?
    ensures route.Some? ==>
      ExportCsv(origin, destination, route, mpg, userPrice, fuel).value
        == Report(origin, destination, route.value, mpg, Costs(route, mpg, userPrice, fuel))
  {
  }

  /**
   * Without a route there is no report. With one, the report reads back as
   * exactly two records of ten fields: the headers, and the origin, the
   * destination and the eight figures printed with 1, 0, 2, 2, 2, 2, 2 and 3
   * decimals, whatever quotes, commas or line breaks the place names hold.
   */
  lemma ExportCsvReadsBack(origin: string, destination: string, route: Option<RouteResponse>, mpg: real,
                           userPrice: Option<real>, fuel: Option<FuelPriceResponse>)
    requires mpg != 0.0
    requires route.Some? ==> route.value.distanceMi != 0.0
    ensures route.None? <==> ExportCsv(origin, destination, route, mpg, userPrice, fuel).None?
    ensures route.Some? ==>
      var row := ReportRow(origin, destination, route.value, mpg, Costs(route, mpg, userPrice, fuel));
      && ParseCsv(ExportCsv(origin, destination, route, mpg, userPrice, fuel).value) == Some([Headers, row])
      && |row| == 10
  {
    ExportCsvIsReport(origin, destination, route, mpg, userPrice, fuel);
    if route.Some? {
      ReportReadsBack(origin, destination, route.value, mpg, Costs(route, mpg, userPrice, fuel));
    }
  }
}
