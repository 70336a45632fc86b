/**
 * The audit export (`apps/api/src/audit/audit-query.service.ts`), checked against an independent parser for the
 * format of section 2 of RFC 4180.
 */
module AuditCsv {
  import opened Strings
  import opened Wrappers

  /** A column value: null or undefined, or the text of its `String` / `JSON.stringify`. */
  datatype Cell = Absent | Text(text: string)

  datatype AuditRow = AuditRow(createdAt: Cell, actorType: Cell, actorId: Cell, action: Cell, resourceType: Cell,
                               resourceId: Cell, ipAddress: Cell, userAgent: Cell, changes: Cell)

  const CSV_HEADERS: seq<string> :=
    ["created_at", "actor_type", "actor_id", "action", "resource_type", "resource_id", "ip_address", "user_agent",
        "changes"]

  const EXPORT_MAX_RANGE_DAYS := 31
  const MS_PER_DAY := 1000 * 60 * 60 * 24

  // ---------------------------------------------------------------- the printer

  predicate IsTrigger(c: char) { c == '=' || c == '+' || c == '-' || c == '@' || c == '\t' || c == '\r' }

  predicate TriggerLed(s: string) { s != "" && IsTrigger(s[0]) }

  /** Formula neutralisation: a quote in front of a value a spreadsheet would execute. */
  function Neutralise(s: string): string { if TriggerLed(s) then "'" + s else s }

  predicate IsSpecial(c: char) { c == '"' || c == ',' || c == '\r' || c == '\n' }

  predicate MustQuote(s: string) { exists i :: 0 <= i < |s| && IsSpecial(s[i]) }

  function DoubleQuotes(s: string): string {
    if s == "" then "" else (if s[0] == '"' then "\"\"" else [s[0]]) + DoubleQuotes(s[1..])
  }

  function EscapeCsvField(value: Cell): string {
    match value
    case Absent => ""
    case Text(text) =>
      var str := Neutralise(text);
      if MustQuote(str) then Quoted(str) else str
  }

  function Quoted(str: string): string { ['"'] + (DoubleQuotes(str) + ['"']) }

  function Cells(row: AuditRow): seq<Cell> {
    [row.createdAt, row.actorType, row.actorId, row.action, row.resourceType, row.resourceId, row.ipAddress,
        row.userAgent, row.changes]
  }

  function EscapeAll(cells: seq<Cell>): seq<string> {
    if cells == [] then [] else [EscapeCsvField(cells[0])] + EscapeAll(cells[1..])
  }

  function RowToCsvLine(row: AuditRow): string { Join(EscapeAll(Cells(row)), ',') }

  function JoinLines(lines: seq<string>): string {
    if lines == [] then "" else if |lines| == 1 then lines[0] else lines[0] + "\r\n" + JoinLines(lines[1..])
  }

  function Lines(rows: seq<AuditRow>): seq<string> {
    if rows == [] then [] else [RowToCsvLine(rows[0])] + Lines(rows[1..])
  }

  function Printed(header: seq<string>, rows: seq<AuditRow>): string {
    JoinLines([Join(header, ',')] + Lines(rows))
  }

  function Csv(rows: seq<AuditRow>): string { Printed(CSV_HEADERS, rows) }

  datatype Export = Exported(csv: string, rowCount: nat) | BadRequest

  /** `exportCsv`: `range` is the requested window in milliseconds when both bounds are given. */
  function ExportCsv(range: Option<int>, rows: seq<AuditRow>, capped: bool): Export {
    if range.Some? && range.value > EXPORT_MAX_RANGE_DAYS * MS_PER_DAY then BadRequest
    else if capped then BadRequest
    else Exported(Csv(rows), |rows|)
  }

  // ---------------------------------------------------------------- a parser for RFC 4180, section 2

  /** TEXTDATA up to the next comma or line break. */
  function ParsePlain(s: string): (r: Option<(string, string)>)
    ensures r.Some? ==> |r.value.1| <= |s|
  {
    if s == "" || s[0] == ',' || s[0] == '\r' || s[0] == '\n' then Some(("", s))
    else if s[0] == '"' then None
    else
      var r := ParsePlain(s[1..]);
      if r.None? then None else Some(([s[0]] + r.value.0, r.value.1))
  }

  /** The inside of a quoted field, after its opening quote. */
  function ParseQuoted(s: string): (r: Option<(string, string)>)
    ensures r.Some? ==> |r.value.1| <= |s|
    decreases |s|
  {
    if s == "" then None
    else if s[0] == '"' then
      if |s| > 1 && s[1] == '"' then
        var r := ParseQuoted(s[2..]);
        if r.None? then None else Some((['"'] + r.value.0, r.value.1))
      else Some(("", s[1..]))
    else
      var r := ParseQuoted(s[1..]);
      if r.None? then None else Some(([s[0]] + r.value.0, r.value.1))
  }

  function ParseField(s: string): (r: Option<(string, string)>)
    ensures r.Some? ==> |r.value.1| <= |s|
  {
    if s != "" && s[0] == '"' then ParseQuoted(s[1..]) else ParsePlain(s)
  }

  /** One record: fields separated by commas. */
  function ParseRecord(s: string): (r: Option<(seq<string>, string)>)
    ensures r.Some? ==> |r.value.1| <= |s|
    decreases |s|
  {
    var f := ParseField(s);
    if f.None? then None
    else if f.value.1 != "" && f.value.1[0] == ',' then
      var r := ParseRecord(f.value.1[1..]);
      if r.None? then None else Some(([f.value.0] + r.value.0, r.value.1))
    else Some(([f.value.0], f.value.1))
  }

  /** The file: records separated by CRLF, with an optional CRLF after the last. */
  function ParseFile(s: string): Option<seq<seq<string>>>
    decreases |s|
  {
    var r := ParseRecord(s);
    if r.None? then None
    else if r.value.1 == "" || r.value.1 == "\r\n" then Some([r.value.0])
    else if "\r\n" <= r.value.1 then
      var rest := ParseFile(r.value.1[2..]);
      if rest.None? then None else Some([r.value.0] + rest.value)
    else None
  }

  // ---------------------------------------------------------------- round trip, field by field

  predicate EndsField(rest: string) { rest == "" || rest[0] == ',' || rest[0] == '\r' }

  lemma {:induction false} PlainRoundTrip(s: string, rest: string)
    requires !MustQuote(s) && EndsField(rest)
    ensures ParsePlain(s + rest) == Some((s, rest))
  {
    if s == "" {
      assert s + rest == rest;
    } else {
      assert !IsSpecial(s[0]);
      forall i | 0 <= i < |s[1..]| ensures !IsSpecial(s[1..][i]) { assert s[1..][i] == s[i + 1]; }
      PlainRoundTrip(s[1..], rest);
      assert (s + rest)[1..] == s[1..] + rest;
      assert [s[0]] + s[1..] == s;
    }
  }

  lemma {:induction false} QuotedRoundTrip(s: string, rest: string)
    requires EndsField(rest)
    ensures ParseQuoted(DoubleQuotes(s) + ['"'] + rest) == Some((s, rest))
  {
    var whole := DoubleQuotes(s) + ['"'] + rest;
    if s == "" {
      assert whole == ['"'] + rest;
      assert whole[1..] == rest;
    } else {
      QuotedRoundTrip(s[1..], rest);
      var tail := DoubleQuotes(s[1..]) + ['"'] + rest;
      if s[0] == '"' {
        assert whole == ['"', '"'] + tail;
        assert whole[2..] == tail;
      } else {
        assert whole == [s[0]] + tail;
        assert whole[1..] == tail;
      }
      assert [s[0]] + s[1..] == s;
    }
  }

  /** The text a cell is exported as. */
  function Shown(value: Cell): string {
    match value case Absent => "" case Text(text) => Neutralise(text)
  }

  lemma PlainField(str: string, rest: string)
    requires !MustQuote(str) && EndsField(rest)
    ensures ParseField(str + rest) == Some((str, rest))
  {
    if str != "" { assert !IsSpecial(str[0]); }
    PlainRoundTrip(str, rest);
  }

  lemma OpeningQuote(tail: string)
    ensures ParseField(['"'] + tail) == ParseQuoted(tail)
  {
    assert (['"'] + tail)[1..] == tail;
  }

  lemma QuotedField(str: string, rest: string)
    requires EndsField(rest)
    ensures ParseField(Quoted(str) + rest) == Some((str, rest))
  {
    QuotedRoundTrip(str, rest);
    var tail := DoubleQuotes(str) + ['"'] + rest;
    OpeningQuote(tail);
    assert Quoted(str) + rest == ['"'] + tail;
  }

  lemma FieldRoundTrip(value: Cell, rest: string)
    requires EndsField(rest)
    ensures ParseField(EscapeCsvField(value) + rest) == Some((Shown(value), rest))
  {
    if MustQuote(Shown(value)) { QuotedField(Shown(value), rest); } else { PlainField(Shown(value), rest); }
  }

  // ---------------------------------------------------------------- records and files

  function ShownAll(cells: seq<Cell>): seq<string> {
    if cells == [] then [] else [Shown(cells[0])] + ShownAll(cells[1..])
  }

  predicate EndsRecord(rest: string) { rest == "" || "\r\n" <= rest }

  lemma LastField(s: string, field: string, rest: string)
    requires ParseField(s) == Some((field, rest)) && EndsRecord(rest)
    ensures ParseRecord(s) == Some(([field], rest))
  {}

  lemma FieldThenMore(s: string, field: string, more: string, fields: seq<string>, rest: string)
    requires ParseField(s) == Some((field, "," + more)) && ParseRecord(more) == Some((fields, rest)) && |more| < |s|
    ensures ParseRecord(s) == Some(([field] + fields, rest))
  {
    assert ("," + more)[1..] == more;
  }

  lemma PrintedRecord(cells: seq<Cell>, rest: string)
    requires |cells| > 1
    ensures Join(EscapeAll(cells), ',') + rest
            == EscapeCsvField(cells[0]) + ("," + (Join(EscapeAll(cells[1..]), ',') + rest))
  {
    var field, others := EscapeCsvField(cells[0]), EscapeAll(cells[1..]);
    JoinMore(field, others);
    Regroup(field, Join(others, ','), rest);
  }

  lemma JoinMore(field: string, others: seq<string>)
    requires others != []
    ensures Join([field] + others, ',') == field + [','] + Join(others, ',')
  {
    assert ([field] + others)[1..] == others;
  }

  lemma Regroup(field: string, more: string, rest: string)
    ensures field + [','] + more + rest == field + ("," + (more + rest))
  {}

  lemma {:induction false} RecordRoundTrip(cells: seq<Cell>, rest: string)
    requires cells != [] && EndsRecord(rest)
    ensures ParseRecord(Join(EscapeAll(cells), ',') + rest) == Some((ShownAll(cells), rest))
  {
    var whole := Join(EscapeAll(cells), ',') + rest;
    if |cells| == 1 {
      assert cells[1..] == [] && EscapeAll(cells) == [EscapeCsvField(cells[0])];
      FieldRoundTrip(cells[0], rest);
      LastField(whole, Shown(cells[0]), rest);
      assert ShownAll(cells) == [Shown(cells[0])];
    } else {
      var more := Join(EscapeAll(cells[1..]), ',') + rest;
      PrintedRecord(cells, rest);
      FieldRoundTrip(cells[0], "," + more);
      RecordRoundTrip(cells[1..], rest);
      FieldThenMore(whole, Shown(cells[0]), more, ShownAll(cells[1..]), rest);
    }
  }

  /** The records of an export, as sequences of cells; the headers are cells too. */
  function RecordLines(records: seq<seq<Cell>>): seq<string> {
    if records == [] then [] else [Join(EscapeAll(records[0]), ',')] + RecordLines(records[1..])
  }

  function ShownRecords(records: seq<seq<Cell>>): seq<seq<string>> {
    if records == [] then [] else [ShownAll(records[0])] + ShownRecords(records[1..])
  }

  lemma OneRecordRoundTrip(record: seq<Cell>)
    requires record != []
    ensures ParseFile(JoinLines(RecordLines([record]))) == Some(ShownRecords([record]))
  {
    var line := Join(EscapeAll(record), ',');
    assert [record][1..] == [] && RecordLines([record]) == [line] && ShownRecords([record]) == [ShownAll(record)];
    RecordRoundTrip(record, "");
    assert line + "" == line;
  }

  lemma LinesOfMore(records: seq<seq<Cell>>)
    requires |records| > 1
    ensures JoinLines(RecordLines(records))
            == Join(EscapeAll(records[0]), ',') + ("\r\n" + JoinLines(RecordLines(records[1..])))
  {
    assert RecordLines(records)[1..] == RecordLines(records[1..]);
    assert |RecordLines(records)| > 1 by { assert RecordLines(records[1..]) != []; }
  }

  lemma {:induction false} FileRoundTrip(records: seq<seq<Cell>>)
    requires records != [] && forall i :: 0 <= i < |records| ==> |records[i]| > 1
    ensures ParseFile(JoinLines(RecordLines(records))) == Some(ShownRecords(records))
  {
    if |records| == 1 {
      OneRecordRoundTrip(records[0]);
      assert records == [records[0]];
    } else {
      var rest := "\r\n" + JoinLines(RecordLines(records[1..]));
      LinesOfMore(records);
      RecordRoundTrip(records[0], rest);
      NotBlank(records[1..]);
      FileRoundTrip(records[1..]);
      FileStep(JoinLines(RecordLines(records)), ShownAll(records[0]), JoinLines(RecordLines(records[1..])));
    }
  }

  lemma FileStep(s: string, record: seq<string>, more: string)
    requires ParseRecord(s) == Some((record, "\r\n" + more)) && more != "" && ParseFile(more).Some?
    ensures ParseFile(s) == Some([record] + ParseFile(more).value)
  {
    var rest := "\r\n" + more;
    assert rest[2..] == more && "\r\n" <= rest && |rest| > 2;
  }

  /** A record of two fields or more prints its comma, so it never looks like the end of the file. */
  lemma NotBlank(records: seq<seq<Cell>>)
    requires records != [] && |records[0]| > 1
    ensures JoinLines(RecordLines(records)) != ""
  {
    assert |EscapeAll(records[0])| > 1 by { assert EscapeAll(records[0])[1..] == EscapeAll(records[0][1..]); }
  }

  // ---------------------------------------------------------------- the main results

  function AsCells(texts: seq<string>): seq<Cell> {
    if texts == [] then [] else [Text(texts[0])] + AsCells(texts[1..])
  }

  /** Printed as it stands. */
  predicate Harmless(s: string) { !TriggerLed(s) && !MustQuote(s) }

  lemma {:induction false} HarmlessTexts(texts: seq<string>)
    requires forall i :: 0 <= i < |texts| ==> Harmless(texts[i])
    ensures EscapeAll(AsCells(texts)) == texts && ShownAll(AsCells(texts)) == texts && |AsCells(texts)| == |texts|
  {
    if texts != [] {
      HarmlessTexts(texts[1..]);
      assert ([Text(texts[0])] + AsCells(texts[1..]))[1..] == AsCells(texts[1..]);
    }
  }

  lemma HeadersAreHarmless()
    ensures forall i :: 0 <= i < |CSV_HEADERS| ==> Harmless(CSV_HEADERS[i])
  {
    assert Harmless("created_at") && Harmless("actor_type") && Harmless("actor_id");
    assert Harmless("action") && Harmless("resource_type") && Harmless("resource_id");
    assert Harmless("ip_address") && Harmless("user_agent") && Harmless("changes");
  }

  function AllCells(rows: seq<AuditRow>): seq<seq<Cell>> {
    if rows == [] then [] else [Cells(rows[0])] + AllCells(rows[1..])
  }

  lemma {:induction false} LinesAreRecordLines(rows: seq<AuditRow>)
    ensures Lines(rows) == RecordLines(AllCells(rows)) && |AllCells(rows)| == |rows|
    ensures forall i :: 0 <= i < |rows| ==> AllCells(rows)[i] == Cells(rows[i])
  {
    if rows != [] {
      LinesAreRecordLines(rows[1..]);
      assert ([Cells(rows[0])] + AllCells(rows[1..]))[1..] == AllCells(rows[1..]);
    }
  }

  lemma {:induction false} ShownRecordsAt(records: seq<seq<Cell>>)
    ensures |ShownRecords(records)| == |records|
    ensures forall i :: 0 <= i < |records| ==> ShownRecords(records)[i] == ShownAll(records[i])
  {
    if records != [] { ShownRecordsAt(records[1..]); }
  }

  lemma {:induction false} ShownAllAt(cells: seq<Cell>)
    ensures |ShownAll(cells)| == |cells|
    ensures forall i :: 0 <= i < |cells| ==> ShownAll(cells)[i] == Shown(cells[i])
  {
    if cells != [] { ShownAllAt(cells[1..]); }
  }

  /** The parser reads back exactly the header and, row by row, the neutralised values. */
  lemma CsvParses(rows: seq<AuditRow>)
    ensures ParseFile(Csv(rows)) == Some([CSV_HEADERS] + ShownRecords(AllCells(rows)))
  {
    HeadersAreHarmless();
    PrintedParses(CSV_HEADERS, rows);
  }

  lemma PrintedParses(header: seq<string>, rows: seq<AuditRow>)
    requires |header| > 1 && forall i :: 0 <= i < |header| ==> Harmless(header[i])
    ensures ParseFile(Printed(header, rows)) == Some([header] + ShownRecords(AllCells(rows)))
  {
    var records := [AsCells(header)] + AllCells(rows);
    HarmlessTexts(header);
    LinesAreRecordLines(rows);
    assert records[1..] == AllCells(rows);
    FileRoundTrip(records);
  }

  /** Whether a spreadsheet would take a field for a formula. */
  predicate LooksLikeFormula(field: string) { field != "" && field[0] in "=+-@\t\r" }

  /** A value reads as itself, behind a quote if it looks like a formula; an absent value reads as nothing. */
  predicate ReadsAs(value: Cell, field: string) {
    match value
    case Absent => field == ""
    case Text(text) => field == if LooksLikeFormula(text) then "'" + text else text
  }

  /** Column by column, the nine values of a row, none of which looks like a formula. */
  predicate IsRecordOf(record: seq<string>, row: AuditRow) {
    && |record| == 9 && (forall k :: 0 <= k < 9 ==> !LooksLikeFormula(record[k]))
    && ReadsAs(row.createdAt, record[0]) && ReadsAs(row.actorType, record[1]) && ReadsAs(row.actorId, record[2])
    && ReadsAs(row.action, record[3]) && ReadsAs(row.resourceType, record[4]) && ReadsAs(row.resourceId, record[5])
    && ReadsAs(row.ipAddress, record[6]) && ReadsAs(row.userAgent, record[7]) && ReadsAs(row.changes, record[8])
  }

  /** The names above those columns. */
  predicate IsHeader(record: seq<string>) {
    && |record| == 9 && record[0] == "created_at" && record[1] == "actor_type" && record[2] == "actor_id"
    && record[3] == "action" && record[4] == "resource_type" && record[5] == "resource_id"
    && record[6] == "ip_address" && record[7] == "user_agent" && record[8] == "changes"
  }

  lemma ShownReads(value: Cell)
    ensures ReadsAs(value, Shown(value)) && !LooksLikeFormula(Shown(value))
  {}

  lemma RecordOfRow(row: AuditRow)
    ensures IsRecordOf(ShownAll(Cells(row)), row)
  {
    var cells := Cells(row);
    ShownAllAt(cells);
    forall k | 0 <= k < 9 ensures ReadsAs(cells[k], ShownAll(cells)[k]) && !LooksLikeFormula(ShownAll(cells)[k]) {
      ShownReads(cells[k]);
    }
  }

  lemma RecordsOfRows(rows: seq<AuditRow>)
    ensures var records := ShownRecords(AllCells(rows));
            |records| == |rows| && forall i :: 0 <= i < |rows| ==> IsRecordOf(records[i], rows[i])
  {
    LinesAreRecordLines(rows);
    ShownRecordsAt(AllCells(rows));
    forall i | 0 <= i < |rows| ensures IsRecordOf(ShownRecords(AllCells(rows))[i], rows[i]) {
      RecordOfRow(rows[i]);
    }
  }

  predicate IsHeaderAndRows(records: seq<seq<string>>, rows: seq<AuditRow>) {
    && |records| == |rows| + 1 && IsHeader(records[0])
    && forall i :: 0 <= i < |rows| ==> IsRecordOf(records[i + 1], rows[i])
  }

  lemma HeaderThenRows(header: seq<string>, records: seq<seq<string>>, rows: seq<AuditRow>)
    requires header == CSV_HEADERS && |records| == |rows|
    requires forall i :: 0 <= i < |rows| ==> IsRecordOf(records[i], rows[i])
    ensures IsHeaderAndRows([header] + records, rows)
  {}

  /** The parsed export is the header record followed by one nine-field record per row, in order. */
  lemma CsvRoundTrip(rows: seq<AuditRow>)
    ensures var parsed := ParseFile(Csv(rows)); parsed.Some? && IsHeaderAndRows(parsed.value, rows)
  {
    CsvParses(rows);
    RecordsOfRows(rows);
    HeaderThenRows(CSV_HEADERS, ShownRecords(AllCells(rows)), rows);
  }

  /** A field is put in quotes exactly when it holds a quote, a comma or a line break. */
  lemma QuotedExactly(value: Cell, field: string)
    requires ReadsAs(value, field)
    ensures EscapeCsvField(value) == field <==> forall i :: 0 <= i < |field| ==> field[i] !in "\",\r\n"
    ensures EscapeCsvField(value) != field ==> |EscapeCsvField(value)| >= |field| + 2 && EscapeCsvField(value)[0] == '"'
  {
    ShownReads(value);
    if MustQuote(field) { DoublingLengthens(field); }
  }

  lemma {:induction false} DoublingLengthens(s: string)
    ensures |DoubleQuotes(s)| >= |s|
  {
    if s != "" { DoublingLengthens(s[1..]); }
  }

  predicate EndsClean(s: string) { s == "" || s[|s| - 1] != '\n' }

  lemma FieldEndsClean(value: Cell)
    ensures EndsClean(EscapeCsvField(value))
  {
    if value.Text? {
      var str := Neutralise(value.text);
      if MustQuote(str) {
        assert Quoted(str)[|Quoted(str)| - 1] == '"';
      } else if str != "" {
        assert !IsSpecial(str[|str| - 1]);
      }
    }
  }

  lemma {:induction false} JoinEndsClean(cells: seq<Cell>)
    requires cells != []
    ensures EndsClean(Join(EscapeAll(cells), ',')) && (|cells| > 1 ==> Join(EscapeAll(cells), ',') != "")
  {
    FieldEndsClean(cells[0]);
    if |cells| == 1 {
      assert EscapeAll(cells) == [EscapeCsvField(cells[0])];
    } else {
      JoinEndsClean(cells[1..]);
      assert EscapeAll(cells)[1..] == EscapeAll(cells[1..]);
    }
  }

  lemma {:induction false} LinesEndClean(records: seq<seq<Cell>>)
    requires records != [] && forall i :: 0 <= i < |records| ==> |records[i]| > 1
    ensures JoinLines(RecordLines(records)) != "" && EndsClean(JoinLines(RecordLines(records)))
  {
    JoinEndsClean(records[0]);
    if |records| == 1 {
      assert RecordLines(records) == [Join(EscapeAll(records[0]), ',')];
    } else {
      LinesEndClean(records[1..]);
      LinesOfMore(records);
    }
  }

  lemma PrintedEndsClean(header: seq<string>, rows: seq<AuditRow>)
    requires |header| > 1 && forall i :: 0 <= i < |header| ==> Harmless(header[i])
    ensures Printed(header, rows) != "" && EndsClean(Printed(header, rows))
  {
    HarmlessTexts(header);
    LinesAreRecordLines(rows);
    var records := [AsCells(header)] + AllCells(rows);
    assert records[1..] == AllCells(rows);
    LinesEndClean(records);
  }

  /** Line breaks separate the records: none follows the last. */
  lemma NoFinalBreak(rows: seq<AuditRow>)
    ensures Csv(rows) != "" && Csv(rows)[|Csv(rows)| - 1] != '\n'
  {
    HeadersAreHarmless();
    PrintedEndsClean(CSV_HEADERS, rows);
  }

  lemma EscapingKeepsApart(a: string, b: string)
    ensures EscapeCsvField(Text(a)) == EscapeCsvField(Text(b)) <==> Neutralise(a) == Neutralise(b)
  {
    FieldRoundTrip(Text(a), "");
    FieldRoundTrip(Text(b), "");
    assert EscapeCsvField(Text(a)) + "" == EscapeCsvField(Text(a));
    assert EscapeCsvField(Text(b)) + "" == EscapeCsvField(Text(b));
  }

  /** Two raw texts print alike only when they are equal or one is the other, trigger-led, behind a quote. */
  lemma CollisionsExactly(a: string, b: string)
    ensures EscapeCsvField(Text(a)) == EscapeCsvField(Text(b))
            <==> a == b || (LooksLikeFormula(a) && b == "'" + a) || (LooksLikeFormula(b) && a == "'" + b)
  {
    EscapingKeepsApart(a, b);
    if TriggerLed(a) && TriggerLed(b) && Neutralise(a) == Neutralise(b) {
      assert ("'" + a)[1..] == a && ("'" + b)[1..] == b;
    }
  }

  /** An export succeeds exactly for a window of at most 31 days and a result under the row cap, and has every row. */
  lemma ExportIsComplete(range: Option<int>, rows: seq<AuditRow>, capped: bool)
    ensures var e := ExportCsv(range, rows, capped);
            && (e.Exported? <==> !capped && (range.Some? ==> range.value <= 31 * 86400000))
            && (e.Exported? ==>
                  && e.rowCount == |rows|
                  && ParseFile(e.csv).Some? && IsHeaderAndRows(ParseFile(e.csv).value, rows))
  {
    CsvRoundTrip(rows);
  }
}
