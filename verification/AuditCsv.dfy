/** `csvCell` and `toCsv` of frontend/src/components/AuditLogView.tsx, and a reader for the
    format they promise: section 2 of RFC 4180, with LF as the record break. */
module AuditCsv {
  import opened AuditRows
  import opened Options
  import opened Strings

  const HEADERS: seq<string> :=
    ["timestamp", "action", "principal_id", "principal_type", "target_kind",
     "target_id", "outcome", "error_message", "metadata"]

  function OrEmpty(o: Option<string>): string {
    match o case None => "" case Some(s) => s
  }

  /** The nine field strings of a row. */
  function Fields(r: AuditRow): (f: seq<string>)
    ensures |f| == 9
  {
    [r.timestamp, r.action, r.principalId, OrEmpty(r.detail.principalType), r.detail.targetKind,
     OrEmpty(r.detail.targetId), r.detail.outcome, OrEmpty(r.detail.errorMessage), OrEmpty(r.detail.metadata)]
  }

  lemma {:induction false} RecordsAt(rows: seq<AuditRow>, i: nat)
    requires i < |rows|
    ensures Records(rows)[i] == Fields(rows[i])
  {
    if i < |rows| - 1 { RecordsAt(rows[..|rows| - 1], i); }
  }

  /** All records have a field: the reader cannot mistake one for an empty line. */
  ghost predicate Filled(records: seq<seq<string>>) {
    forall i :: 0 <= i < |records| ==> records[i] != []
  }

  lemma {:induction false} RecordsFilled(headers: seq<string>, rows: seq<AuditRow>)
    requires headers != []
    ensures Filled([headers] + Records(rows))
  {
    forall i | 0 <= i < |rows| ensures Records(rows)[i] != [] { RecordsAt(rows, i); }
  }

  // ---- the writer ----

  predicate Special(c: char) {
    c == '"' || c == ',' || c == '\r' || c == '\n'
  }

  predicate NeedsQuotes(s: string) {
    exists i :: 0 <= i < |s| && Special(s[i])
  }

  function DoubleQuotes(s: string): string {
    if s == "" then ""
    else (if s[0] == '"' then "\"\"" else [s[0]]) + DoubleQuotes(s[1..])
  }

  function CsvCell(s: string): string {
    if NeedsQuotes(s) then "\"" + DoubleQuotes(s) + "\"" else s
  }

  function Cells(fields: seq<string>): (c: seq<string>)
    ensures |c| == |fields|
  {
    if fields == [] then [] else [CsvCell(fields[0])] + Cells(fields[1..])
  }

  /** One line of the document, without its break. */
  function Line(fields: seq<string>): string {
    Join(Cells(fields), ',')
  }

  function Lines(records: seq<seq<string>>): (l: seq<string>)
    ensures |l| == |records|
  {
    if records == [] then [] else Lines(records[..|records| - 1]) + [Line(records[|records| - 1])]
  }

  function Records(rows: seq<AuditRow>): (r: seq<seq<string>>)
    ensures |r| == |rows|
  {
    if rows == [] then [] else Records(rows[..|rows| - 1]) + [Fields(rows[|rows| - 1])]
  }

  function Document(records: seq<seq<string>>): string {
    Join(Lines(records), '\n') + "\n"
  }

  /** The whole export; the reader below is its partner. */
  method ToCsv(rows: seq<AuditRow>) returns (csv: string)
    ensures Parse(csv) == Some([HEADERS] + Records(rows))
    ensures csv == Document([HEADERS] + Records(rows))
    ensures csv != "" && csv[|csv| - 1] == '\n'
  {
    PlainHeaders();
    csv := WriteCsv(HEADERS, rows);
  }

  method WriteCsv(headers: seq<string>, rows: seq<AuditRow>) returns (csv: string)
    requires headers != [] && forall i :: 0 <= i < |headers| ==> !NeedsQuotes(headers[i])
    ensures Parse(csv) == Some([headers] + Records(rows))
    ensures csv == Document([headers] + Records(rows))
  {
    var lines := [Join(headers, ',')];
    ghost var first := lines;
    for i := 0 to |rows|
      invariant lines == first + Lines(Records(rows[..i]))
    {
      lines := lines + [Line(Fields(rows[i]))];
      RecordsSnoc(rows, i);
    }
    assert rows[..|rows|] == rows;
    csv := Join(lines, '\n') + "\n";
    PlainCells(headers);
    LinesCons(headers, Records(rows));
    RecordsFilled(headers, rows);
    ParseUndoesDocument([headers] + Records(rows));
  }

  lemma {:induction false} PlainHeaders()
    ensures forall i :: 0 <= i < |HEADERS| ==> !NeedsQuotes(HEADERS[i])
  {
  }

  lemma {:induction false} RecordsSnoc(rows: seq<AuditRow>, i: nat)
    requires i < |rows|
    ensures Lines(Records(rows[..i + 1])) == Lines(Records(rows[..i])) + [Line(Fields(rows[i]))]
  {
    assert rows[..i + 1][..i] == rows[..i];
    LinesSnoc(Records(rows[..i]), Fields(rows[i]));
  }

  lemma {:induction false} LinesSnoc(records: seq<seq<string>>, last: seq<string>)
    ensures Lines(records + [last]) == Lines(records) + [Line(last)]
  {
    assert (records + [last])[..|records|] == records;
  }

  lemma {:induction false} LinesCons(first: seq<string>, records: seq<seq<string>>)
    ensures Lines([first] + records) == [Line(first)] + Lines(records)
  {
    if records == [] {
      LinesSnoc([], first);
      assert [first] + records == [] + [first];
    } else {
      var init, last := records[..|records| - 1], records[|records| - 1];
      LinesCons(first, init);
      LinesSnoc([first] + init, last);
      assert [first] + records == [first] + init + [last];
    }
  }

  lemma {:induction false} PlainCells(fields: seq<string>)
    requires forall i :: 0 <= i < |fields| ==> !NeedsQuotes(fields[i])
    ensures Cells(fields) == fields
  {
    if fields != [] { PlainCells(fields[1..]); }
  }

  // ---- the reader ----

  datatype Mode = FieldStart | Bare | Quoted | QuoteSeen | Broken

  datatype Reader = Reader(records: seq<seq<string>>, fields: seq<string>, cell: string, mode: Mode)

  function EndField(r: Reader): Reader {
    Reader(r.records, r.fields + [r.cell], "", FieldStart)
  }

  function EndRecord(r: Reader): Reader {
    Reader(r.records + [r.fields + [r.cell]], [], "", FieldStart)
  }

  function Step(r: Reader, c: char): Reader {
    match r.mode
    case FieldStart =>
      if c == '"' then r.(mode := Quoted)
      else if c == ',' then EndField(r)
      else if c == '\n' then EndRecord(r)
      else if c == '\r' then r.(mode := Broken)
      else r.(mode := Bare, cell := [c])
    case Bare =>
      if c == ',' then EndField(r)
      else if c == '\n' then EndRecord(r)
      else if c == '"' || c == '\r' then r.(mode := Broken)
      else r.(cell := r.cell + [c])
    case Quoted =>
      if c == '"' then r.(mode := QuoteSeen) else r.(cell := r.cell + [c])
    case QuoteSeen =>
      if c == '"' then r.(mode := Quoted, cell := r.cell + ['"'])
      else if c == ',' then EndField(r)
      else if c == '\n' then EndRecord(r)
      else r.(mode := Broken)
    case Broken => r
  }

  function Feed(r: Reader, s: string): Reader
    decreases |s|
  {
    if s == "" then r else Feed(Step(r, s[0]), s[1..])
  }

  /** The break after the last record is optional; an open quote or a stray character
      makes the text malformed. */
  function Parse(s: string): Option<seq<seq<string>>> {
    var r := Feed(Reader([], [], "", FieldStart), s);
    if r.mode == Broken || r.mode == Quoted then None
    else if r.mode == FieldStart && r.fields == [] then Some(r.records)
    else Some(EndRecord(r).records)
  }

  // ---- round trip ----

  lemma {:induction false} FeedConcat(r: Reader, a: string, b: string)
    ensures Feed(r, a + b) == Feed(Feed(r, a), b)
    decreases |a|
  {
    if a == "" {
      assert a + b == b;
    } else {
      assert (a + b)[0] == a[0] && (a + b)[1..] == a[1..] + b;
      FeedConcat(Step(r, a[0]), a[1..], b);
    }
  }

  lemma {:induction false} FeedChar(r: Reader, c: char)
    ensures Feed(r, [c]) == Step(r, c)
  {
    assert [c][1..] == "";
  }

  lemma {:induction false} PlainTail(s: string)
    requires s != "" && !NeedsQuotes(s)
    ensures !Special(s[0]) && !NeedsQuotes(s[1..])
  {
    assert forall i :: 0 <= i < |s[1..]| ==> s[1..][i] == s[i + 1];
  }

  lemma {:induction false} FeedPlain(r: Reader, s: string)
    requires r.mode == Bare && !NeedsQuotes(s)
    ensures Feed(r, s) == r.(cell := r.cell + s)
    decreases |s|
  {
    if s == "" {
      assert r.cell + s == r.cell;
    } else {
      PlainTail(s);
      FeedPlain(r.(cell := r.cell + [s[0]]), s[1..]);
      assert r.cell + [s[0]] + s[1..] == r.cell + s;
    }
  }

  lemma {:induction false} FeedDoubled(r: Reader, s: string)
    requires r.mode == Quoted
    ensures Feed(r, DoubleQuotes(s)) == r.(cell := r.cell + s)
    decreases |s|
  {
    if s == "" {
      assert r.cell + s == r.cell;
    } else {
      var first := if s[0] == '"' then "\"\"" else [s[0]];
      var r' := r.(cell := r.cell + [s[0]]);
      FeedConcat(r, first, DoubleQuotes(s[1..]));
      assert Feed(r, first) == r' by {
        if s[0] == '"' {
          assert first[1..] == "\"";
          FeedChar(Step(r, '"'), '"');
        } else {
          FeedChar(r, s[0]);
        }
      }
      FeedDoubled(r', s[1..]);
      assert r.cell + [s[0]] + s[1..] == r.cell + s;
    }
  }

  /** After a written cell the reader holds the cell's text and waits for a separator. */
  lemma {:induction false} FeedCell(r: Reader, s: string)
    requires r.mode == FieldStart && r.cell == ""
    ensures Step(Feed(r, CsvCell(s)), ',') == Reader(r.records, r.fields + [s], "", FieldStart)
    ensures Step(Feed(r, CsvCell(s)), '\n') == Reader(r.records + [r.fields + [s]], [], "", FieldStart)
  {
    if NeedsQuotes(s) {
      FeedConcat(r, "\"" + DoubleQuotes(s), "\"");
      FeedConcat(r, "\"", DoubleQuotes(s));
      FeedChar(r, '"');
      FeedDoubled(Step(r, '"'), s);
      FeedChar(Feed(Step(r, '"'), DoubleQuotes(s)), '"');
      assert r.cell + s == s;
    } else if s != "" {
      assert s == [s[0]] + s[1..];
      PlainTail(s);
      FeedPlain(Step(r, s[0]), s[1..]);
    }
  }

  lemma {:induction false} FeedNext(r: Reader, s: string, tail: string)
    requires r.mode == FieldStart && r.cell == ""
    ensures Feed(r, CsvCell(s) + ("," + tail)) == Feed(Reader(r.records, r.fields + [s], "", FieldStart), tail)
  {
    var cell := CsvCell(s);
    FeedCell(r, s);
    FeedConcat(r, cell, "," + tail);
    FeedConcat(Feed(r, cell), ",", tail);
    FeedChar(Feed(r, cell), ',');
  }

  lemma {:induction false} FeedLast(r: Reader, s: string)
    requires r.mode == FieldStart && r.cell == ""
    ensures Feed(r, CsvCell(s) + "\n") == Reader(r.records + [r.fields + [s]], [], "", FieldStart)
  {
    FeedCell(r, s);
    FeedConcat(r, CsvCell(s), "\n");
    FeedChar(Feed(r, CsvCell(s)), '\n');
  }

  /** A line with its break, cell by cell. */
  function Terminated(fields: seq<string>): string
    requires fields != []
  {
    if |fields| == 1 then CsvCell(fields[0]) + "\n" else CsvCell(fields[0]) + ("," + Terminated(fields[1..]))
  }

  lemma {:induction false} LineIsTerminated(fields: seq<string>)
    requires fields != []
    ensures Line(fields) + "\n" == Terminated(fields)
    decreases |fields|
  {
    var cells := Cells(fields);
    assert cells[0] == CsvCell(fields[0]) && cells[1..] == Cells(fields[1..]);
    if |fields| == 1 {
      assert Line(fields) == cells[0];
    } else {
      var rest := Line(fields[1..]);
      LineIsTerminated(fields[1..]);
      assert Line(fields) == cells[0] + [','] + rest;
      assert cells[0] + [','] + rest + "\n" == cells[0] + ("," + (rest + "\n"));
    }
  }

  lemma {:induction false} FeedTerminated(r: Reader, fields: seq<string>)
    requires r.mode == FieldStart && r.cell == "" && fields != []
    ensures Feed(r, Terminated(fields)) == Reader(r.records + [r.fields + fields], [], "", FieldStart)
    decreases |fields|
  {
    var first, rest := fields[0], fields[1..];
    if rest == [] {
      assert fields == [first];
      FeedLast(r, first);
    } else {
      FeedNext(r, first, Terminated(rest));
      FeedTerminated(Reader(r.records, r.fields + [first], "", FieldStart), rest);
      assert r.fields + [first] + rest == r.fields + fields;
    }
  }

  lemma {:induction false} FeedLine(r: Reader, fields: seq<string>)
    requires r.mode == FieldStart && r.cell == "" && fields != []
    ensures Feed(r, Line(fields) + "\n") == Reader(r.records + [r.fields + fields], [], "", FieldStart)
  {
    LineIsTerminated(fields);
    FeedTerminated(r, fields);
  }

  /** `lines.join(sep) + sep` appends one terminated line at a time. */
  lemma {:induction false} JoinSnoc(lines: seq<string>, last: string, sep: char)
    requires lines != []
    ensures Join(lines + [last], sep) + [sep] == Join(lines, sep) + [sep] + (last + [sep])
    decreases |lines|
  {
    if |lines| == 1 {
      assert (lines + [last])[1..] == [last];
    } else {
      assert (lines + [last])[1..] == lines[1..] + [last];
      JoinSnoc(lines[1..], last, sep);
      assert Join(lines + [last], sep) + [sep] == lines[0] + [sep] + (Join(lines[1..] + [last], sep) + [sep]);
    }
  }

  lemma {:induction false} FeedDocument(records: seq<seq<string>>)
    requires records != [] && Filled(records)
    ensures Feed(Reader([], [], "", FieldStart), Document(records)) == Reader(records, [], "", FieldStart)
    decreases |records|
  {
    var start := Reader([], [], "", FieldStart);
    var init, last := records[..|records| - 1], records[|records| - 1];
    assert records == init + [last];
    assert [] + last == last;
    if init == [] {
      LinesSnoc([], last);
      assert records == [last] && Lines(records) == [Line(last)];
      assert Document(records) == Line(last) + "\n";
      FeedLine(start, last);
    } else {
      FeedDocument(init);
      LinesSnoc(init, last);
      JoinSnoc(Lines(init), Line(last), '\n');
      FeedConcat(start, Document(init), Line(last) + "\n");
      FeedLine(Reader(init, [], "", FieldStart), last);
    }
  }

  /** Reading a written document gives back every field of every record, whatever commas,
      quotes, CRs and LFs the fields contain. */
  lemma {:induction false} ParseUndoesDocument(records: seq<seq<string>>)
    requires records != [] && Filled(records)
    ensures Parse(Document(records)) == Some(records)
  {
    FeedDocument(records);
  }

  lemma {:induction false} DocumentIsInjective(a: seq<seq<string>>, b: seq<seq<string>>)
    requires a != [] && b != [] && Filled(a) && Filled(b) && Document(a) == Document(b)
    ensures a == b
  {
    ParseUndoesDocument(a);
    ParseUndoesDocument(b);
  }

  lemma {:induction false} FieldsOfRecords(a: seq<AuditRow>, b: seq<AuditRow>)
    requires Records(a) == Records(b)
    ensures |a| == |b| && forall i :: 0 <= i < |a| ==> Fields(a[i]) == Fields(b[i])
  {
    assert |a| == |Records(a)| && |b| == |Records(b)|;
    forall i | 0 <= i < |a| ensures Fields(a[i]) == Fields(b[i]) {
      RecordsAt(a, i);
      RecordsAt(b, i);
    }
  }

  lemma {:induction false} SameTail<T>(x: T, a: seq<T>, b: seq<T>)
    requires [x] + a == [x] + b
    ensures a == b
  {
    assert ([x] + a)[1..] == a && ([x] + b)[1..] == b;
  }

  /** Two exports are equal only if all their rows have the same field strings. */
  lemma {:induction false} ExportIsInjective(headers: seq<string>, a: seq<AuditRow>, b: seq<AuditRow>)
    requires headers != [] && Document([headers] + Records(a)) == Document([headers] + Records(b))
    ensures |a| == |b| && forall i :: 0 <= i < |a| ==> Fields(a[i]) == Fields(b[i])
  {
    RecordsFilled(headers, a);
    RecordsFilled(headers, b);
    DocumentIsInjective([headers] + Records(a), [headers] + Records(b));
    SameTail(headers, Records(a), Records(b));
    FieldsOfRecords(a, b);
  }

  // ---- what stands where ----

  /** The text of an optional field: nothing for null. */
  predicate TextOf(text: string, o: Option<string>) {
    (o == None ==> text == "") && (o != None ==> o == Some(text))
  }

  /** The line of a row holds its fields in the order of the header line. */
  predicate InColumns(header: seq<string>, line: seq<string>, r: AuditRow) {
    && |header| == 9 && |line| == 9
    && header[0] == "timestamp" && line[0] == r.timestamp
    && header[1] == "action" && line[1] == r.action
    && header[2] == "principal_id" && line[2] == r.principalId
    && header[3] == "principal_type" && TextOf(line[3], r.detail.principalType)
    && header[4] == "target_kind" && line[4] == r.detail.targetKind
    && header[5] == "target_id" && TextOf(line[5], r.detail.targetId)
    && header[6] == "outcome" && line[6] == r.detail.outcome
    && header[7] == "error_message" && TextOf(line[7], r.detail.errorMessage)
    && header[8] == "metadata" && TextOf(line[8], r.detail.metadata)
  }

  lemma {:induction false} RowInColumns(r: AuditRow)
    ensures InColumns(HEADERS, Fields(r), r)
  {
  }

  /** Reading an export gives a header line and a line for each row in order, with each field of the
      row under its name. */
  lemma {:induction false} FieldsUnderTheirNames(rows: seq<AuditRow>, i: nat)
    requires i < |rows|
    ensures var table := Parse(Document([HEADERS] + Records(rows)));
            table.Some? && |table.value| == |rows| + 1 && InColumns(table.value[0], table.value[i + 1], rows[i])
  {
    RecordsFilled(HEADERS, rows);
    ParseUndoesDocument([HEADERS] + Records(rows));
    RecordsAt(rows, i);
    RowInColumns(rows[i]);
  }

  lemma {:induction false} DoubledSize(s: string)
    ensures |DoubleQuotes(s)| >= |s|
    decreases |s|
  {
    if s != "" { DoubledSize(s[1..]); }
  }

  /** A cell is quoted if and only if it contains a quote, a comma, a CR or an LF. */
  lemma {:induction false} QuotedIfNeeded(s: string)
    ensures CsvCell(s) == s <==> '"' !in s && ',' !in s && '\r' !in s && '\n' !in s
  {
    DoubledSize(s);
    if NeedsQuotes(s) {
      var i :| 0 <= i < |s| && Special(s[i]);
      assert s[i] in s;
      assert |CsvCell(s)| > |s|;
    }
  }
}
