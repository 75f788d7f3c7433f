/** The CSV rendering of a HESA return (server/src/utils/hesa-csv-export.ts) and a parser for the
    format, written from RFC 4180, section 2, rules 2 and 4 to 7. */
module HesaCsv {
  import opened Prelude

  /** A field value: absent, a string, or anything else by the text it is rendered as. */
  datatype Cell = Null | Text(s: string) | Shown(text: string)

  datatype Line = Line(recordKey: string, entityType: string, fields: map<string, Cell>)

  datatype Composition = Composition(
    academicYear: string,
    returnType: string,
    generatedDate: string,
    columnOrder: seq<string>,
    lines: seq<Line>,
    recordCount: nat,
    errorCount: nat,
    warningCount: nat,
    infoCount: nat)

  const CRLF := "\r\n"

  function Render(v: Cell): string {
    match v
    case Null => ""
    case Text(s) => s
    case Shown(t) => t
  }

  predicate FieldNeedsEscape(s: string) { ',' in s || '\n' in s || '\r' in s || '"' in s }

  /** Every double quote doubled. */
  function DoubleQuotes(s: string): string {
    if s == [] then [] else (if s[0] == '"' then "\"\"" else [s[0]]) + DoubleQuotes(s[1..])
  }

  function FormatField(v: Cell): string {
    if FieldNeedsEscape(Render(v)) then "\"" + DoubleQuotes(Render(v)) + "\"" else Render(v)
  }

  function Join(parts: seq<string>, separator: string): string {
    if parts == [] then ""
    else if |parts| == 1 then parts[0]
    else parts[0] + separator + Join(parts[1..], separator)
  }

  function FormatRow(values: seq<Cell>): string { Join(Map(FormatField, values), ",") }

  // ---------------------------------------------------------------- the exported records

  /** Decimal digits of a count. */
  function Decimal(n: nat): (s: string)
    ensures s != [] && forall i :: 0 <= i < |s| ==> '0' <= s[i] <= '9'
  {
    (if n < 10 then [] else Decimal(n / 10)) + ["0123456789"[n % 10]]
  }

  predicate AllDigits(s: string) { forall i :: 0 <= i < |s| ==> '0' <= s[i] <= '9' }

  /** The number that digits spell in base ten. */
  function DigitValue(s: string): nat
    requires AllDigits(s)
  {
    if s == [] then 0 else 10 * DigitValue(s[..|s| - 1]) + (s[|s| - 1] as int - '0' as int)
  }

  /** The text is how the number is written: digits with that value and no leading zero. */
  ghost predicate Spells(s: string, n: nat) {
    s != [] && AllDigits(s) && DigitValue(s) == n && (s[0] == '0' ==> s == "0")
  }

  /** A count is written as the number it is. */
  lemma {:induction false} DecimalSpells(n: nat)
    ensures Spells(Decimal(n), n)
  {
    hide Decimal, DigitValue;
    DecimalUnfolds(n);
    var digit := Decimal(n)[|Decimal(n)| - 1];
    if n < 10 {
      OneMoreDigit([], 0, digit);
    } else {
      DecimalSpells(n / 10);
      OneMoreDigit(Decimal(n / 10), n / 10, digit);
    }
  }

  lemma DecimalUnfolds(n: nat)
    ensures var digit := Decimal(n)[|Decimal(n)| - 1];
      && '0' <= digit <= '9' && digit as int - '0' as int == n % 10
      && Decimal(n) == (if n < 10 then [] else Decimal(n / 10)) + [digit]
  {
  }

  /** Writing a digit after digits that spell a number, or after nothing, spells ten times as much and it. */
  lemma {:induction false} OneMoreDigit(s: string, n: nat, digit: char)
    requires if s == [] then n == 0 else Spells(s, n) && n > 0
    requires '0' <= digit <= '9'
    ensures Spells(s + [digit], 10 * n + (digit as int - '0' as int))
  {
    assert (s + [digit])[..|s|] == s;
    if s == [] {
      assert digit == '0' ==> s + [digit] == "0";
    } else {
      assert s != "0" by { assert "0"[..0] == []; }
    }
  }

  function AsText(s: string): Cell { Text(s) }

  function Header(c: Composition): seq<Cell> { [Text("RecordKey"), Text("EntityType")] + Map(AsText, c.columnOrder) }

  /** `line.fields[col] ?? ''` */
  function FieldOf(line: Line): string -> Cell {
    (col: string) => if col in line.fields && line.fields[col] != Null then line.fields[col] else Text("")
  }

  function DataRow(columnOrder: seq<string>): Line -> seq<Cell> {
    (line: Line) => [Text(line.recordKey), Text(line.entityType)] + Map(FieldOf(line), columnOrder)
  }

  datatype Title = AcademicYear | ReturnType | Generated | RecordTotal | ErrorTotal | WarningTotal | InfoTotal

  function TitleText(t: Title): string {
    match t
    case AcademicYear => "# Academic year"
    case ReturnType => "# Return type"
    case Generated => "# Generated"
    case RecordTotal => "# Records"
    case ErrorTotal => "# Errors"
    case WarningTotal => "# Warnings"
    case InfoTotal => "# Info"
  }

  /** One trailer note: described notes are formatted, counts are written as they are. */
  datatype Note = Described(title: Title, text: string) | Counted(title: Title, count: nat)

  function NoteRow(n: Note): seq<Cell> {
    [Text(TitleText(n.title)), Text(if n.Described? then n.text else Decimal(n.count))]
  }

  function NoteText(n: Note): string {
    TitleText(n.title) + "," + (if n.Described? then FormatField(Text(n.text)) else Decimal(n.count))
  }

  function Notes(c: Composition): seq<Note> {
    [Described(AcademicYear, c.academicYear), Described(ReturnType, c.returnType),
     Described(Generated, c.generatedDate),
     Counted(RecordTotal, c.recordCount), Counted(ErrorTotal, c.errorCount),
     Counted(WarningTotal, c.warningCount), Counted(InfoTotal, c.infoCount)]
  }

  /** Header, one record per line, the blank line, the trailer. */
  function Table(c: Composition): seq<seq<Cell>> {
    [Header(c)] + Map(DataRow(c.columnOrder), c.lines) + [[Text("")]] + Map(NoteRow, Notes(c))
  }

  function Rendered(row: seq<Cell>): seq<string> { Map(Render, row) }

  function Records(c: Composition): seq<seq<string>> { Map(Rendered, Table(c)) }

  /** The header and every data record have the two key columns and one field per column. */
  lemma RecordWidths(c: Composition, i: nat)
    requires i <= |c.lines|
    ensures |Records(c)| == 1 + |c.lines| + 8 && |Records(c)[i]| == 2 + |c.columnOrder|
    ensures i > 0 ==> Table(c)[i] == DataRow(c.columnOrder)(c.lines[i - 1])
  {
  }

  ghost predicate Counts(record: seq<string>, title: string, n: nat) {
    |record| == 2 && record[0] == title && Spells(record[1], n)
  }

  /** The file ends in a blank record, the three described notes and the four counts as numbers. */
  ghost predicate EndsInTrailer(records: seq<seq<string>>, c: Composition) {
    var n := |c.lines| + 1;
    && |records| == n + 8 && records[n] == [""]
    && records[n + 1] == ["# Academic year", c.academicYear] && records[n + 2] == ["# Return type", c.returnType]
    && records[n + 3] == ["# Generated", c.generatedDate]
    && Counts(records[n + 4], "# Records", c.recordCount) && Counts(records[n + 5], "# Errors", c.errorCount)
    && Counts(records[n + 6], "# Warnings", c.warningCount) && Counts(records[n + 7], "# Info", c.infoCount)
  }

  lemma {:induction false} NoteRecord(n: Note)
    ensures Rendered(NoteRow(n)) == [TitleText(n.title), if n.Described? then n.text else Decimal(n.count)]
    ensures n.Counted? ==> Counts(Rendered(NoteRow(n)), TitleText(n.title), n.count)
  {
    hide Decimal;
    if n.Counted? { DecimalSpells(n.count); }
  }

  lemma {:induction false} RecordsEndInTrailer(c: Composition)
    ensures EndsInTrailer(Records(c), c)
  {
    hide Decimal, Spells, Header, DataRow, Counts;
    var n, notes := |c.lines| + 1, Notes(c);
    forall k | 0 <= k < 7 ensures Records(c)[n + 1 + k] == Rendered(NoteRow(notes[k])) {
      assert Table(c)[n + 1 + k] == Map(NoteRow, notes)[k];
      NoteRecord(notes[k]);
    }
    forall k | 0 <= k < 7 { NoteRecord(notes[k]); }
    hide NoteRow;
    assert Records(c)[n] == Rendered([Text("")]) == [""];
    assert Records(c)[n + 1 + 0] == Rendered(NoteRow(notes[0])) && Records(c)[n + 1 + 1] == Rendered(NoteRow(notes[1]));
    assert Records(c)[n + 1 + 2] == Rendered(NoteRow(notes[2])) && Records(c)[n + 1 + 3] == Rendered(NoteRow(notes[3]));
    assert Records(c)[n + 1 + 4] == Rendered(NoteRow(notes[4])) && Records(c)[n + 1 + 5] == Rendered(NoteRow(notes[5]));
    assert Records(c)[n + 1 + 6] == Rendered(NoteRow(notes[6]));
  }

  // ---------------------------------------------------------------- the export loop

  lemma TitleIsPlain(t: Title)
    ensures !FieldNeedsEscape(TitleText(t))
  {
  }

  lemma {:induction false} PairRow(title: string, value: Cell)
    requires !FieldNeedsEscape(title)
    ensures FormatRow([Text(title), value]) == title + "," + FormatField(value)
  {
    var parts := Map(FormatField, [Text(title), value]);
    assert parts == [title, FormatField(value)];
    assert parts[1..] == [FormatField(value)];
    assert Join(parts[1..], ",") == FormatField(value);
  }

  /** The notes the source writes by hand are what `formatRow` would have written. */
  lemma {:induction false} NoteIsFormatted(n: Note)
    ensures FormatRow(NoteRow(n)) == NoteText(n)
  {
    TitleIsPlain(n.title);
    PairRow(TitleText(n.title), NoteRow(n)[1]);
  }

  lemma {:induction false} TableIsFormatted(c: Composition)
    ensures Map(FormatRow, Table(c))
         == [FormatRow(Header(c))] + Map(FormatRow, Map(DataRow(c.columnOrder), c.lines))
            + [""] + Map(NoteText, Notes(c))
  {
    assert Map(FormatField, [Text("")]) == [""];
    assert FormatRow([Text("")]) == "";
    NotesAreFormatted(Notes(c));
  }

  lemma {:induction false} NotesAreFormatted(notes: seq<Note>)
    ensures Map(FormatRow, Map(NoteRow, notes)) == Map(NoteText, notes)
  {
    forall i | 0 <= i < |notes| ensures FormatRow(NoteRow(notes[i])) == NoteText(notes[i]) {
      NoteIsFormatted(notes[i]);
    }
  }

  method ExportHesaReturnAsCsv(c: Composition) returns (csv: string)
    ensures csv == Join(Map(FormatRow, Table(c)), CRLF)
    ensures ParseFile(csv) == Some(Records(c)) && EndsInTrailer(Records(c), c)
  {
    hide FormatRow, ParseFile, Table, Records, NoteText, EndsInTrailer, Header, Notes, Join;
    RecordsEndInTrailer(c);
    var rows: seq<string> := [];
    rows := rows + [FormatRow(Header(c))];
    for i := 0 to |c.lines|
      invariant rows == [FormatRow(Header(c))] + Map(FormatRow, Map(DataRow(c.columnOrder), c.lines[..i]))
    {
      var line := c.lines[i];
      rows := rows + [FormatRow([Text(line.recordKey), Text(line.entityType)] + Map(FieldOf(line), c.columnOrder))];
    }
    assert c.lines[..|c.lines|] == c.lines;
    rows := rows + [""];
    rows := rows + Map(NoteText, Notes(c));
    TableIsFormatted(c);
    ExportRoundTrip(c);
    csv := Join(rows, CRLF);
  }

  // ---------------------------------------------------------------- an RFC 4180 parser

  datatype Parsed<T> = Parsed(value: T, rest: string)

  /** End of text, a comma or a line break: what may follow a field. */
  predicate AtDelimiter(s: string) {
    s == [] || s[0] == ',' || (|s| >= 2 && s[..2] == CRLF)
  }

  /** Unescaped text runs to the next delimiter and contains no quote and no lone CR or LF. */
  function ParsePlain(s: string): (r: Option<Parsed<string>>)
    ensures r.Some? ==> |r.value.rest| <= |s| && AtDelimiter(r.value.rest)
  {
    if AtDelimiter(s) then Some(Parsed("", s))
    else if s[0] == '"' || s[0] == '\r' || s[0] == '\n' then None
    else
      match ParsePlain(s[1..])
      case None => None
      case Some(p) => Some(Parsed([s[0]] + p.value, p.rest))
  }

  /** Escaped text after its opening quote: runs to the quote that is not doubled. */
  function ParseQuoted(s: string): (r: Option<Parsed<string>>)
    ensures r.Some? ==> |r.value.rest| < |s|
  {
    if s == [] then None
    else if s[0] != '"' then
      match ParseQuoted(s[1..])
      case None => None
      case Some(p) => Some(Parsed([s[0]] + p.value, p.rest))
    else if |s| >= 2 && s[1] == '"' then
      match ParseQuoted(s[2..])
      case None => None
      case Some(p) => Some(Parsed("\"" + p.value, p.rest))
    else Some(Parsed("", s[1..]))
  }

  function ParseField(s: string): (r: Option<Parsed<string>>)
    ensures r.Some? ==> |r.value.rest| <= |s| && AtDelimiter(r.value.rest)
  {
    if s != [] && s[0] == '"' then
      match ParseQuoted(s[1..])
      case None => None
      case Some(p) => if AtDelimiter(p.rest) then Some(p) else None
    else ParsePlain(s)
  }

  function ParseRecord(s: string): (r: Option<Parsed<seq<string>>>)
    ensures r.Some? ==> |r.value.rest| <= |s|
    ensures r.Some? ==> r.value.rest == [] || (|r.value.rest| >= 2 && r.value.rest[..2] == CRLF)
    decreases |s|
  {
    match ParseField(s)
    case None => None
    case Some(p) =>
      if p.rest == [] || p.rest[0] != ',' then Some(Parsed([p.value], p.rest))
      else
        match ParseRecord(p.rest[1..])
        case None => None
        case Some(q) => Some(Parsed([p.value] + q.value, q.rest))
  }

  function ParseFile(s: string): Option<seq<seq<string>>>
    decreases |s|
  {
    match ParseRecord(s)
    case None => None
    case Some(p) =>
      if p.rest == [] then Some([p.value])
      else
        match ParseFile(p.rest[2..])
        case None => None
        case Some(records) => Some([p.value] + records)
  }

  // ---------------------------------------------------------------- the round trip

  lemma {:induction false} PlainRoundTrip(s: string, rest: string)
    requires !FieldNeedsEscape(s) && AtDelimiter(rest)
    ensures ParsePlain(s + rest) == Some(Parsed(s, rest))
  {
    if s == [] {
      assert s + rest == rest;
    } else {
      assert (s + rest)[1..] == s[1..] + rest;
      PlainRoundTrip(s[1..], rest);
      assert !AtDelimiter(s + rest) by {
        assert (s + rest)[0] == s[0] && s[0] in s;
        assert CRLF[0] == '\r';
      }
      assert [s[0]] + s[1..] == s;
    }
  }

  /** One character of escaped text, doubled if it is a quote, is read back as itself. */
  lemma {:induction false} ParseOneMore(c: char, tail: string)
    requires ParseQuoted(tail).Some?
    ensures var p := ParseQuoted(tail).value;
      ParseQuoted((if c == '"' then "\"\"" else [c]) + tail) == Some(Parsed([c] + p.value, p.rest))
  {
    assert ("\"\"" + tail)[2..] == tail && ([c] + tail)[1..] == tail;
  }

  lemma {:induction false} ParseClosing(rest: string)
    requires rest == [] || rest[0] != '"'
    ensures ParseQuoted("\"" + rest) == Some(Parsed("", rest))
  {
    assert ("\"" + rest)[1..] == rest;
  }

  lemma DoubledFirst(s: string)
    ensures DoubleQuotes(s)
         == if s == [] then [] else (if s[0] == '"' then "\"\"" else [s[0]]) + DoubleQuotes(s[1..])
  {
  }

  lemma {:induction false} QuotedRoundTrip(s: string, rest: string)
    requires rest == [] || rest[0] != '"'
    ensures ParseQuoted(DoubleQuotes(s) + "\"" + rest) == Some(Parsed(s, rest))
  {
    hide DoubleQuotes, ParseQuoted;
    var text := DoubleQuotes(s) + "\"" + rest;
    DoubledFirst(s);
    if s == [] {
      assert text == "\"" + rest;
      ParseClosing(rest);
    } else {
      var tail := DoubleQuotes(s[1..]) + "\"" + rest;
      QuotedRoundTrip(s[1..], rest);
      assert [s[0]] + s[1..] == s;
      ParseOneMore(s[0], tail);
      assert text == (if s[0] == '"' then "\"\"" else [s[0]]) + tail;
    }
  }

  /** A field is written bare exactly when it holds no comma, line break or double quote, and then as its
      own text; absent values are written as nothing. */
  lemma {:induction false} BareFieldIff(v: Cell)
    ensures FormatField(v) == (match v case Null => "" case Text(s) => s case Shown(t) => t)
       <==> forall i :: 0 <= i < |Render(v)| ==> Render(v)[i] !in {',', '\n', '\r', '"'}
  {
    var s := Render(v);
    if FieldNeedsEscape(s) { DoubledIsNoShorter(s); }
  }

  lemma {:induction false} DoubledIsNoShorter(s: string)
    ensures |DoubleQuotes(s)| >= |s|
  {
    if s == [] {
    } else {
      DoubledIsNoShorter(s[1..]);
    }
  }

  lemma {:induction false} FieldRoundTrip(v: Cell, rest: string)
    requires AtDelimiter(rest)
    ensures ParseField(FormatField(v) + rest) == Some(Parsed(Render(v), rest))
  {
    var s := Render(v);
    DelimiterHead(rest);
    if FieldNeedsEscape(s) {
      var text := FormatField(v) + rest;
      assert text == "\"" + (DoubleQuotes(s) + "\"" + rest);
      assert text[1..] == DoubleQuotes(s) + "\"" + rest;
      QuotedRoundTrip(s, rest);
    } else {
      PlainRoundTrip(s, rest);
      PlainHead(s, rest);
    }
  }

  lemma DelimiterHead(rest: string)
    requires AtDelimiter(rest)
    ensures rest == [] || rest[0] == ',' || rest[0] == '\r'
  {
  }

  lemma PlainHead(s: string, rest: string)
    requires !FieldNeedsEscape(s) && AtDelimiter(rest)
    ensures s + rest == [] || (s + rest)[0] != '"'
  {
  }

  lemma {:induction false} RowRoundTrip(row: seq<Cell>, rest: string)
    requires row != [] && (rest == [] || (|rest| >= 2 && rest[..2] == CRLF))
    ensures ParseRecord(FormatRow(row) + rest) == Some(Parsed(Rendered(row), rest))
  {
    hide ParseField, FormatField;
    var parts := Map(FormatField, row);
    if |row| == 1 {
      FieldRoundTrip(row[0], rest);
      assert rest == [] || rest[0] != ',' by { assert CRLF[0] == '\r'; }
      assert Rendered(row) == [Render(row[0])];
    } else {
      var tail := FormatRow(row[1..]) + rest;
      assert parts[1..] == Map(FormatField, row[1..]);
      assert FormatRow(row) + rest == FormatField(row[0]) + ("," + tail);
      FieldRoundTrip(row[0], "," + tail);
      assert ("," + tail)[1..] == tail;
      RowRoundTrip(row[1..], rest);
      assert Rendered(row) == [Render(row[0])] + Rendered(row[1..]);
    }
  }

  lemma {:induction false} FileRoundTrip(rows: seq<seq<Cell>>)
    requires rows != [] && forall i :: 0 <= i < |rows| ==> rows[i] != []
    ensures ParseFile(Join(Map(FormatRow, rows), CRLF)) == Some(Map(Rendered, rows))
  {
    hide ParseRecord, FormatRow, Rendered;
    var parts := Map(FormatRow, rows);
    if |rows| == 1 {
      RowRoundTrip(rows[0], "");
      assert parts[0] + "" == parts[0];
      assert Map(Rendered, rows) == [Rendered(rows[0])];
    } else {
      var tail := Join(Map(FormatRow, rows[1..]), CRLF);
      assert parts[1..] == Map(FormatRow, rows[1..]);
      assert Join(parts, CRLF) == FormatRow(rows[0]) + (CRLF + tail);
      assert (CRLF + tail)[..2] == CRLF && (CRLF + tail)[2..] == tail;
      RowRoundTrip(rows[0], CRLF + tail);
      FileRoundTrip(rows[1..]);
      assert Map(Rendered, rows) == [Rendered(rows[0])] + Map(Rendered, rows[1..]);
    }
  }

  /** Whatever the cells contain, parsing the exported text gives back exactly the records. */
  lemma {:induction false} ExportRoundTrip(c: Composition)
    ensures ParseFile(Join(Map(FormatRow, Table(c)), CRLF)) == Some(Records(c))
  {
    var rows := Table(c);
    forall i | 0 <= i < |rows| ensures rows[i] != [] {
      if i <= |c.lines| { RecordWidths(c, i); }
    }
    FileRoundTrip(rows);
  }

  /** Two compositions export to the same text only if they render to the same records. */
  lemma {:induction false} ExportInjective(c: Composition, d: Composition)
    requires Join(Map(FormatRow, Table(c)), CRLF) == Join(Map(FormatRow, Table(d)), CRLF)
    ensures Records(c) == Records(d)
  {
    ExportRoundTrip(c);
    ExportRoundTrip(d);
  }
}
