/**
 * The frozen hardware-telemetry CSV contract (src/telemetry_csv.rs). The float
 * type is a parameter together with its printer and parser; the timestamp
 * column is modelled digit by digit.
 */
module TelemetryCsv {
  import opened Prelude
  import opened Text

  const COLUMNS := ["timestamp_ms", "gpu_temp_c", "gpu_power_w", "cpu_tctl_c", "cpu_package_power_w"]
  const HEADER := Join(COLUMNS, ',')
  const FIELD_COUNT: nat := 5

  datatype CsvRow<F> = CsvRow(
    timestampMs: U64,
    gpuTempC: F,
    gpuPowerW: F,
    cpuTctlC: F,
    cpuPackagePowerW: F)

  /** `{}` formatting, `str::parse` and `is_finite` of the float type. */
  datatype FloatText<!F> = FloatText(show: F -> string, parse: string -> Option<F>, isFinite: F -> bool)

  predicate PlainField(s: string) {
    s != "" && forall i :: 0 <= i < |s| ==> s[i] != ',' && !IsWhitespace(s[i])
  }

  /** Printing a finite value gives a plain field that parses back to the same value. */
  ghost predicate Faithful<F(!new)>(t: FloatText<F>) {
    forall x: F :: t.isFinite(x) ==> PlainField(t.show(x)) && t.parse(t.show(x)) == Some(x)
  }

  predicate FiniteRow<F>(t: FloatText<F>, row: CsvRow<F>) {
    t.isFinite(row.gpuTempC) && t.isFinite(row.gpuPowerW)
    && t.isFinite(row.cpuTctlC) && t.isFinite(row.cpuPackagePowerW)
  }

  function Fields<F>(t: FloatText<F>, row: CsvRow<F>): seq<string> {
    [PrintNat(row.timestampMs), t.show(row.gpuTempC), t.show(row.gpuPowerW), t.show(row.cpuTctlC),
     t.show(row.cpuPackagePowerW)]
  }

  function ToCsvLine<F>(t: FloatText<F>, row: CsvRow<F>): string {
    Join(Fields(t, row), ',')
  }

  datatype ParsedLine<F> = Blank | Row(row: CsvRow<F>) | Malformed

  function ParseFinite<F>(t: FloatText<F>, field: string): Option<F> {
    match t.parse(field)
    case Some(x) => if t.isFinite(x) then Some(x) else None
    case None => None
  }

  function ParseDataLine<F>(t: FloatText<F>, rawLine: string): ParsedLine<F> {
    var line := Trim(rawLine);
    if line == "" then Blank
    else
      var fields := Split(line, ',');
      if |fields| != FIELD_COUNT then Malformed
      else match (ParseU64(fields[0]), ParseFinite(t, fields[1]), ParseFinite(t, fields[2]),
                  ParseFinite(t, fields[3]), ParseFinite(t, fields[4]))
        case (Some(ts), Some(a), Some(b), Some(c), Some(d)) => Row(CsvRow(ts, a, b, c, d))
        case _ => Malformed
  }

  datatype CsvError = EmptyInput | HeaderMismatch(actual: string)

  datatype LoadResult<F> = LoadResult(rows: seq<CsvRow<F>>, skipped: nat)

  function ValidateHeader(line: Option<string>): Option<CsvError> {
    match line
    case None => Some(EmptyInput)
    case Some(text) => if Trim(text) != HEADER then Some(HeaderMismatch(Trim(text))) else None
  }

  // ---- what the loops compute -------------------------------------------------------

  function RowsText<F>(t: FloatText<F>, rows: seq<CsvRow<F>>): string {
    if rows == [] then "" else ToCsvLine(t, rows[0]) + "\n" + RowsText(t, rows[1..])
  }

  function CsvText<F>(t: FloatText<F>, rows: seq<CsvRow<F>>): string {
    HEADER + "\n" + RowsText(t, rows)
  }

  function Collected<F>(t: FloatText<F>, lines: seq<string>): LoadResult<F> {
    if lines == [] then LoadResult([], 0)
    else
      var rest := Collected(t, lines[1..]);
      match ParseDataLine(t, lines[0])
      case Blank => rest
      case Row(row) => LoadResult([row] + rest.rows, rest.skipped)
      case Malformed => LoadResult(rest.rows, rest.skipped + 1)
  }

  function Parsed<F>(t: FloatText<F>, contents: string): Result<LoadResult<F>, CsvError> {
    var lines := Lines(contents);
    match ValidateHeader(if lines == [] then None else Some(lines[0]))
    case Some(error) => Failure(error)
    case None => Success(Collected(t, lines[1..]))
  }

  lemma {:induction false} RowsTextAppend<F>(t: FloatText<F>, rows: seq<CsvRow<F>>, row: CsvRow<F>)
    ensures RowsText(t, rows + [row]) == RowsText(t, rows) + ToCsvLine(t, row) + "\n"
  {
    if rows == [] {
      assert (rows + [row])[1..] == [];
    } else {
      assert (rows + [row])[1..] == rows[1..] + [row];
      RowsTextAppend(t, rows[1..], row);
    }
  }

  lemma NextRowText<F>(head: string, t: FloatText<F>, rows: seq<CsvRow<F>>, k: nat)
    requires k < |rows|
    ensures head + RowsText(t, rows[..k + 1]) == head + RowsText(t, rows[..k]) + ToCsvLine(t, rows[k]) + "\n"
  {
    RowsTextAppend(t, rows[..k], rows[k]);
    assert rows[..k] + [rows[k]] == rows[..k + 1];
    Reassociate(head, RowsText(t, rows[..k]), ToCsvLine(t, rows[k]), "\n");
  }

  lemma Reassociate(a: string, b: string, c: string, d: string)
    ensures a + (b + c + d) == a + b + c + d
  {
  }

  method FormatCsv<F>(t: FloatText<F>, rows: seq<CsvRow<F>>) returns (out: string)
    ensures out == CsvText(t, rows)
  {
    var header := HEADER;
    out := FormatUnder(header, t, rows);
  }

  method FormatUnder<F>(header: string, t: FloatText<F>, rows: seq<CsvRow<F>>) returns (out: string)
    ensures out == header + "\n" + RowsText(t, rows)
  {
    out := header;
    out := out + "\n";
    for k := 0 to |rows|
      invariant out == header + "\n" + RowsText(t, rows[..k])
    {
      NextRowText(header + "\n", t, rows, k);
      out := out + ToCsvLine(t, rows[k]);
      out := out + "\n";
    }
    assert rows[..|rows|] == rows;
  }

  lemma {:induction false} CollectedAppend<F>(t: FloatText<F>, lines: seq<string>, line: string)
    ensures var before := Collected(t, lines);
            Collected(t, lines + [line]) ==
            match ParseDataLine(t, line)
            case Blank => before
            case Row(row) => LoadResult(before.rows + [row], before.skipped)
            case Malformed => LoadResult(before.rows, before.skipped + 1)
  {
    if lines == [] {
      assert ([] + [line])[1..] == [];
      assert Collected(t, []) == LoadResult([], 0);
    } else {
      assert (lines + [line])[1..] == lines[1..] + [line];
      CollectedAppend(t, lines[1..], line);
    }
  }

  method CollectRows<F>(t: FloatText<F>, lines: seq<string>) returns (result: LoadResult<F>)
    ensures result == Collected(t, lines)
  {
    var rows: seq<CsvRow<F>> := [];
    var skipped := 0;
    for k := 0 to |lines|
      invariant LoadResult(rows, skipped) == Collected(t, lines[..k])
    {
      CollectedAppend(t, lines[..k], lines[k]);
      assert lines[..k] + [lines[k]] == lines[..k + 1];
      match ParseDataLine(t, lines[k]) {
        case Blank =>
        case Row(row) => rows := rows + [row];
        case Malformed => skipped := skipped + 1;
      }
    }
    assert lines[..|lines|] == lines;
    result := LoadResult(rows, skipped);
  }

  method ParseCsv<F>(t: FloatText<F>, contents: string) returns (result: Result<LoadResult<F>, CsvError>)
    ensures result == Parsed(t, contents)
  {
    var lines := Lines(contents);
    var header := ValidateHeader(if lines == [] then None else Some(lines[0]));
    if header.Some? {
      result := Failure(header.value);
    } else {
      var loaded := CollectRows(t, lines[1..]);
      result := Success(loaded);
    }
  }

  // ---- round trip ---------------------------------------------------------------------

  lemma PrintedFieldIsPlain(n: nat)
    ensures PlainField(PrintNat(n))
  {
    PrintedDigits(n);
  }

  lemma FieldsArePlain<F(!new)>(t: FloatText<F>, row: CsvRow<F>)
    requires Faithful(t) && FiniteRow(t, row)
    ensures forall i :: 0 <= i < 5 ==> PlainField(Fields(t, row)[i])
  {
    PrintedFieldIsPlain(row.timestampMs);
  }

  /** A printed line is one trimmed, unbroken line that starts and ends with a visible character. */
  lemma CsvLineIsClean<F(!new)>(t: FloatText<F>, row: CsvRow<F>)
    requires Faithful(t) && FiniteRow(t, row)
    ensures var line := ToCsvLine(t, row);
            Without(line, '\n') && Without(line, '\r') && line != "" && Trim(line) == line
  {
    var fields := Fields(t, row);
    FieldsArePlain(t, row);
    JoinWithout(fields, ',', '\n');
    JoinWithout(fields, ',', '\r');
    JoinEnds(fields, ',');
    TrimKeeps(Join(fields, ','));
  }

  lemma {:induction false} JoinEnds(parts: seq<string>, sep: char)
    requires parts != [] && forall i :: 0 <= i < |parts| ==> parts[i] != ""
    ensures var s := Join(parts, sep);
            s != "" && s[0] == parts[0][0] && s[|s| - 1] == parts[|parts| - 1][|parts[|parts| - 1]| - 1]
  {
    if |parts| > 1 {
      JoinEnds(parts[1..], sep);
    }
  }

  lemma ParseOfLine<F(!new)>(t: FloatText<F>, row: CsvRow<F>)
    requires Faithful(t) && FiniteRow(t, row)
    ensures ParseDataLine(t, ToCsvLine(t, row)) == Row(row)
  {
    CsvLineIsClean(t, row);
    FieldsArePlain(t, row);
    SplitOfJoin(Fields(t, row), ',');
    ParseOfPrint(row.timestampMs);
  }

  lemma CollectedFirst<F(!new)>(t: FloatText<F>, row: CsvRow<F>, rest: string)
    requires Faithful(t) && FiniteRow(t, row)
    ensures var after := Collected(t, Lines(rest));
            Collected(t, Lines(ToCsvLine(t, row) + "\n" + rest)) == LoadResult([row] + after.rows, after.skipped)
  {
    CsvLineIsClean(t, row);
    LinesOfTerminated(ToCsvLine(t, row), rest);
    ParseOfLine(t, row);
    assert ([ToCsvLine(t, row)] + Lines(rest))[1..] == Lines(rest);
  }

  lemma {:induction false} CollectedRowsText<F(!new)>(t: FloatText<F>, rows: seq<CsvRow<F>>)
    requires Faithful(t) && forall i :: 0 <= i < |rows| ==> FiniteRow(t, rows[i])
    ensures Collected(t, Lines(RowsText(t, rows))) == LoadResult(rows, 0)
  {
    if rows == [] {
      assert Lines("") == [];
    } else {
      CollectedRowsText(t, rows[1..]);
      CollectedFirst(t, rows[0], RowsText(t, rows[1..]));
    }
  }

  /** Formatting any finite rows and parsing the text gives exactly those rows, nothing skipped. */
  lemma RoundTrip<F(!new)>(t: FloatText<F>, rows: seq<CsvRow<F>>)
    requires Faithful(t) && forall i :: 0 <= i < |rows| ==> FiniteRow(t, rows[i])
    ensures Parsed(t, CsvText(t, rows)) == Success(LoadResult(rows, 0))
  {
    HeaderIsClean();
    LinesOfTerminated(HEADER, RowsText(t, rows));
    CollectedRowsText(t, rows);
    assert Lines(CsvText(t, rows))[1..] == Lines(RowsText(t, rows));
  }

  lemma ColumnIsPlain(i: nat)
    requires i < 5
    ensures PlainField(COLUMNS[i])
  {
    match i
    case 0 => assert PlainField("timestamp_ms");
    case 1 => assert PlainField("gpu_temp_c");
    case 2 => assert PlainField("gpu_power_w");
    case 3 => assert PlainField("cpu_tctl_c");
    case 4 => assert PlainField("cpu_package_power_w");
  }

  lemma HeaderIsClean()
    ensures Without(HEADER, '\n') && Without(HEADER, '\r') && Trim(HEADER) == HEADER
  {
    forall i | 0 <= i < 5 ensures PlainField(COLUMNS[i]) {
      ColumnIsPlain(i);
    }
    JoinWithout(COLUMNS, ',', '\n');
    JoinWithout(COLUMNS, ',', '\r');
    JoinEnds(COLUMNS, ',');
    TrimKeeps(HEADER);
  }

  // ---- the text itself -----------------------------------------------------------------

  lemma JoinFive(a: string, b: string, c: string, d: string, e: string)
    ensures Join([a, b, c, d, e], ',') == a + "," + (b + "," + (c + "," + (d + "," + e)))
  {
    assert [a, b, c, d, e][1..] == [b, c, d, e] && [b, c, d, e][1..] == [c, d, e];
    assert [c, d, e][1..] == [d, e] && [d, e][1..] == [e];
    assert Join([d, e], ',') == d + "," + Join([e], ',');
    assert Join([c, d, e], ',') == c + "," + Join([d, e], ',');
    assert Join([b, c, d, e], ',') == b + "," + Join([c, d, e], ',');
  }

  /** The frozen header, and one line per row in the order of its columns. */
  lemma FormattedText<F>(t: FloatText<F>, rows: seq<CsvRow<F>>, row: CsvRow<F>)
    ensures HEADER == "timestamp_ms" + "," + ("gpu_temp_c" + "," + ("gpu_power_w" + ","
                        + ("cpu_tctl_c" + "," + "cpu_package_power_w")))
    ensures ToCsvLine(t, row)
         == PrintNat(row.timestampMs) + "," + (t.show(row.gpuTempC) + "," + (t.show(row.gpuPowerW) + ","
            + (t.show(row.cpuTctlC) + "," + t.show(row.cpuPackagePowerW))))
    ensures CsvText(t, []) == HEADER + "\n"
    ensures CsvText(t, rows + [row]) == CsvText(t, rows) + ToCsvLine(t, row) + "\n"
  {
    JoinFive("timestamp_ms", "gpu_temp_c", "gpu_power_w", "cpu_tctl_c", "cpu_package_power_w");
    JoinFive(PrintNat(row.timestampMs), t.show(row.gpuTempC), t.show(row.gpuPowerW), t.show(row.cpuTctlC),
             t.show(row.cpuPackagePowerW));
    AppendedText(HEADER + "\n", t, rows, row);
  }

  lemma AppendedText<F>(head: string, t: FloatText<F>, rows: seq<CsvRow<F>>, row: CsvRow<F>)
    ensures head + RowsText(t, rows + [row]) == head + RowsText(t, rows) + ToCsvLine(t, row) + "\n"
  {
    RowsTextAppend(t, rows, row);
    Reassociate(head, RowsText(t, rows), ToCsvLine(t, row), "\n");
  }

  /** A line is blank exactly when there is nothing but whitespace on it. */
  lemma BlankExactly<F>(t: FloatText<F>, line: string)
    ensures ParseDataLine(t, line).Blank? <==> AllWhitespace(line)
  {
    var _, _ := TrimExactly(line);
  }

  /** A field that is a finite number of the float type. */
  predicate FiniteField<F>(t: FloatText<F>, field: string) {
    t.parse(field).Some? && t.isFinite(t.parse(field).value)
  }

  /**
   * What any comma-separated list means, with whatever whitespace around it: a
   * row exactly when it has five fields, an unsigned 64-bit number and four
   * finite ones, each for its own column; otherwise it is skipped.
   */
  lemma LineExactly<F>(t: FloatText<F>, line: string, fields: seq<string>)
    requires fields != [] && forall i :: 0 <= i < |fields| ==> Without(fields[i], ',')
    requires Trim(line) == Join(fields, ',') && !AllWhitespace(line)
    ensures var meaningful :=
              && |fields| == 5 && ParseU64(fields[0]).Some?
              && FiniteField(t, fields[1]) && FiniteField(t, fields[2])
              && FiniteField(t, fields[3]) && FiniteField(t, fields[4]);
            ParseDataLine(t, line) ==
              if !meaningful then Malformed
              else Row(CsvRow(ParseU64(fields[0]).value, t.parse(fields[1]).value, t.parse(fields[2]).value,
                              t.parse(fields[3]).value, t.parse(fields[4]).value))
  {
    BlankExactly(t, line);
    SplitOfJoin(fields, ',');
  }

  /** Why a load fails: nothing to read, or another header, which is quoted. */
  lemma LoadErrors<F>(t: FloatText<F>, contents: string)
    ensures var lines := Lines(contents);
            && (Parsed(t, contents) == Failure(EmptyInput) <==> contents == "")
            && (lines != [] && Trim(lines[0]) != HEADER ==>
                  Parsed(t, contents) == Failure(HeaderMismatch(Trim(lines[0]))))
  {
  }

  // ---- accounting -----------------------------------------------------------------------

  function BlankLines<F>(t: FloatText<F>, lines: seq<string>): nat {
    if lines == [] then 0
    else (if ParseDataLine(t, lines[0]).Blank? then 1 else 0) + BlankLines(t, lines[1..])
  }

  lemma {:induction false} LinesAreAccountedFor<F>(t: FloatText<F>, lines: seq<string>)
    ensures |lines| == |Collected(t, lines).rows| + Collected(t, lines).skipped + BlankLines(t, lines)
  {
    if lines != [] {
      LinesAreAccountedFor(t, lines[1..]);
    }
  }

  /** The same count without the parser: a line counts as blank when it is nothing but whitespace. */
  function WhitespaceLines(lines: seq<string>): nat {
    if lines == [] then 0 else (if AllWhitespace(lines[0]) then 1 else 0) + WhitespaceLines(lines[1..])
  }

  lemma {:induction false} BlankLinesAreWhitespace<F>(t: FloatText<F>, lines: seq<string>)
    ensures BlankLines(t, lines) == WhitespaceLines(lines)
  {
    if lines != [] {
      BlankExactly(t, lines[0]);
      BlankLinesAreWhitespace(t, lines[1..]);
    }
  }

  /** A load fails exactly on a missing or different header; otherwise every data line is a row, skipped, or blank. */
  lemma EveryDataLineIsAccountedFor<F>(t: FloatText<F>, contents: string)
    ensures var lines := Lines(contents);
            && (Parsed(t, contents).Success? <==> lines != [] && Trim(lines[0]) == HEADER)
            && (Parsed(t, contents).Success? ==>
                  var loaded := Parsed(t, contents).value;
                  |lines| - 1 == |loaded.rows| + loaded.skipped + WhitespaceLines(lines[1..]))
  {
    if Lines(contents) != [] {
      BlankLinesAreWhitespace(t, Lines(contents)[1..]);
      LinesAreAccountedFor(t, Lines(contents)[1..]);
    }
  }

  /** Only finite values ever come out of a file, whatever it contains. */
  lemma {:induction false} LoadedRowsAreFinite<F>(t: FloatText<F>, lines: seq<string>, i: nat)
    requires i < |Collected(t, lines).rows|
    ensures FiniteRow(t, Collected(t, lines).rows[i])
  {
    if ParseDataLine(t, lines[0]).Row? {
      if i > 0 {
        LoadedRowsAreFinite(t, lines[1..], i - 1);
      }
    } else {
      LoadedRowsAreFinite(t, lines[1..], i);
    }
  }
}
