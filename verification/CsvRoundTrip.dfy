/** Printing and parsing a CSV export gives the rows back, and exactly when. */
module CsvRoundTrip {
  import opened Text
  import opened Csv
  import opened CsvLines

  function ValueOf(cell: Option<string>): string {
    if cell.Some? then cell.value else ""
  }

  function Values(row: Row): (r: seq<string>)
    ensures |r| == |row| && forall i | 0 <= i < |row| :: r[i] == ValueOf(row[i])
  {
    seq(|row|, i requires 0 <= i < |row| => ValueOf(row[i]))
  }

  // ---- one line

  /** Each cell of a printed row is one stretch in quotes. */
  function QuotedCells(row: Row): (r: seq<Cell>)
    ensures |r| == |row| && forall i | 0 <= i < |row| :: r[i] == [Quoted(ValueOf(row[i]))]
  {
    seq(|row|, i requires 0 <= i < |row| => [Quoted(ValueOf(row[i]))])
  }

  lemma EscapedIsQuoted(cell: Option<string>)
    ensures EscapeCsv(cell) == "\"" + DoubleQuotes(ValueOf(cell)) + "\""
  {
  }

  lemma QuotedIsCell(cell: Option<string>, rest: string)
    requires !StartsWithQuote(rest)
    ensures var c := [Quoted(ValueOf(cell))];
            IsCell(c, rest) && CellText(c) == EscapeCsv(cell) && CellValue(c) == ValueOf(cell)
  {
    EscapedIsQuoted(cell);
    hide DoubleQuotes, EscapeCsv;
    var c := [Quoted(ValueOf(cell))];
    assert c[1..] == [] && CellText([]) + rest == rest;
  }

  lemma CellsOneMore(row: Row)
    requires row != []
    ensures QuotedCells(row) == [[Quoted(ValueOf(row[0]))]] + QuotedCells(row[1..])
  {
    hide ValueOf;
  }

  lemma ValuesOneMore(row: Row)
    requires row != []
    ensures Values(row) == [ValueOf(row[0])] + Values(row[1..])
  {
    hide ValueOf;
  }

  lemma EscapedTail(row: Row)
    requires row != []
    ensures Escaped(row)[1..] == Escaped(row[1..])
  {
    hide EscapeCsv;
  }

  lemma PrintedOneMore(row: Row)
    requires |row| > 1
    ensures PrintRow(row) == EscapeCsv(row[0]) + ([','] + PrintRow(row[1..]))
  {
    EscapedTail(row);
    var parts := Escaped(row);
    hide EscapeCsv, Escaped;
  }

  lemma {:induction false} RowIsLine(row: Row)
    requires row != []
    ensures IsLine(QuotedCells(row), None)
    ensures Line(QuotedCells(row), None) == PrintRow(row) && LineValues(QuotedCells(row), None) == Values(row)
  {
    var c := [Quoted(ValueOf(row[0]))];
    QuotedIsCell(row[0], if |row| == 1 then "" else ",");
    CellsOneMore(row);
    ValuesOneMore(row);
    if |row| == 1 {
      OneCell(c);
      hide IsCell, CellText, CellValue, EscapeCsv, IsLine, Line, LineValues, ValueOf;
      assert QuotedCells(row) == [c] && Values(row) == [ValueOf(row[0])];
    } else {
      hide IsCell, CellText, CellValue, EscapeCsv, IsLine, Line, LineValues, PrintRow, ValueOf;
      PrintedOneMore(row);
      RowIsLine(row[1..]);
      OneCellMore(c, QuotedCells(row[1..]), None);
    }
  }

  /** A printed row is read back cell by cell, for all uses of quotes and commas. */
  lemma ScanRow(row: Row, cells: seq<string>)
    requires row != []
    ensures Scan(PrintRow(row), "", false, cells) == cells + Values(row)
  {
    RowIsLine(row);
    ScanLine(QuotedCells(row), None, cells);
  }

  /** A name that can be printed without quotes. */
  predicate IsPlain(name: string) {
    '"' !in name && ',' !in name && '\r' !in name && '\n' !in name
  }

  function BareCells(header: seq<string>): (r: seq<Cell>)
    ensures |r| == |header| && forall i | 0 <= i < |header| :: r[i] == [Bare(header[i])]
  {
    seq(|header|, i requires 0 <= i < |header| => [Bare(header[i])])
  }

  lemma BareIsCell(name: string, rest: string)
    requires IsPlain(name)
    ensures IsCell([Bare(name)], rest) && CellText([Bare(name)]) == name && CellValue([Bare(name)]) == name
  {
    assert [Bare(name)][1..] == [];
  }

  lemma BareOneMore(header: seq<string>)
    requires header != []
    ensures BareCells(header) == [[Bare(header[0])]] + BareCells(header[1..])
  {
  }

  lemma {:induction false} HeaderIsLine(header: seq<string>)
    requires header != [] && forall h | h in header :: IsPlain(h)
    ensures IsLine(BareCells(header), None)
    ensures Line(BareCells(header), None) == Join(header, ',') && LineValues(BareCells(header), None) == header
  {
    var c := [Bare(header[0])];
    BareIsCell(header[0], if |header| == 1 then "" else ",");
    BareOneMore(header);
    hide IsCell, CellText, CellValue, IsPlain, IsLine, Line, LineValues;
    assert header == [header[0]] + header[1..];
    if |header| == 1 {
      assert BareCells(header) == [c];
      OneCell(c);
    } else {
      HeaderIsLine(header[1..]);
      OneCellMore(c, BareCells(header[1..]), None);
    }
  }

  lemma ScanHeader(header: seq<string>, cells: seq<string>)
    requires header != [] && forall h | h in header :: IsPlain(h)
    ensures Scan(Join(header, ','), "", false, cells) == cells + header
  {
    HeaderIsLine(header);
    ScanLine(BareCells(header), None, cells);
  }

  // ---- the lines of the text

  predicate HasBreak(s: string) {
    exists i | 0 <= i < |s| :: IsBreak(s[i])
  }

  predicate StartsWithPair(s: string) {
    |s| > 1 && s[0] == '\r' && s[1] == '\n'
  }

  lemma SplitPair(s: string)
    requires StartsWithPair(s)
    ensures SplitLines(s) == [""] + SplitLines(s[2..])
  {
  }

  lemma SplitSingle(s: string)
    requires s != "" && IsBreak(s[0]) && !StartsWithPair(s)
    ensures SplitLines(s) == [""] + SplitLines(s[1..])
  {
  }

  lemma SplitLetter(s: string)
    requires s != "" && !IsBreak(s[0])
    ensures SplitLines(s) == Prepend(s[0], SplitLines(s[1..]))
  {
  }

  lemma PrependAppend(c: char, a: seq<string>, b: seq<string>)
    requires a != []
    ensures Prepend(c, a + b) == Prepend(c, a) + b
  {
    assert (a + b)[1..] == a[1..] + b;
  }

  /** A line end between two texts splits them, whatever they contain. */
  lemma {:induction false} SplitAtBreak(a: string, b: string)
    ensures SplitLines(a + "\r\n" + b) == SplitLines(a) + SplitLines(b)
  {
    var s := a + "\r\n" + b;
    if a == "" {
      assert SplitLines("") == [""] && s[2..] == b;
      hide SplitLines;
      SplitPair(s);
    } else {
      hide SplitLines, Prepend;
      assert s[0] == a[0] && s[1..] == a[1..] + "\r\n" + b && s[1] == if |a| == 1 then '\r' else a[1];
      if StartsWithPair(a) {
        assert s[2..] == a[2..] + "\r\n" + b;
        SplitAtBreak(a[2..], b);
        SplitPair(a);
        SplitPair(s);
      } else {
        SplitAtBreak(a[1..], b);
        if IsBreak(a[0]) {
          SplitSingle(a);
          SplitSingle(s);
        } else {
          SplitLetter(a);
          SplitLetter(s);
          PrependAppend(a[0], SplitLines(a[1..]), SplitLines(b));
        }
      }
    }
  }

  lemma {:induction false} SplitUnbroken(s: string)
    ensures |SplitLines(s)| == 1 <==> !HasBreak(s)
    ensures !HasBreak(s) ==> SplitLines(s) == [s]
  {
    if s != "" {
      assert s == [s[0]] + s[1..];
      BreaksAppend([s[0]], s[1..]);
      assert HasBreak([s[0]]) <==> IsBreak(s[0]);
      if !IsBreak(s[0]) {
        hide SplitLines, HasBreak;
        SplitUnbroken(s[1..]);
        SplitLetter(s);
      }
    }
  }

  lemma BreaksAppend(a: string, b: string)
    ensures HasBreak(a + b) <==> HasBreak(a) || HasBreak(b)
  {
    if i :| 0 <= i < |a| && IsBreak(a[i]) { assert IsBreak((a + b)[i]); }
    if i :| 0 <= i < |b| && IsBreak(b[i]) { assert IsBreak((a + b)[|a| + i]); }
    if i :| 0 <= i < |a + b| && IsBreak((a + b)[i]) { assert if i < |a| then IsBreak(a[i]) else IsBreak(b[i - |a|]); }
  }

  function Last<T>(s: seq<T>): T
    requires |s| > 0
  {
    s[|s| - 1]
  }

  /** The first and the last piece of a text that starts and ends with a quote do so too. */
  lemma SplitStart(s: string)
    requires s != "" && !IsBreak(s[0])
    ensures SplitLines(s)[0] != "" && SplitLines(s)[0][0] == s[0]
  {
    hide SplitLines;
    SplitLetter(s);
  }

  lemma PrependLast(c: char, lines: seq<string>)
    requires lines != []
    ensures Last(Prepend(c, lines)) == if |lines| == 1 then [c] + lines[0] else Last(lines)
  {
  }

  /** The last piece of the text ends as the text does. */
  ghost predicate EndsAlike(s: string) {
    s != "" && Last(SplitLines(s)) != "" && Last(Last(SplitLines(s))) == Last(s)
  }

  lemma EndOfLetter(s: string)
    requires s != "" && !IsBreak(s[0]) && (|s| == 1 || EndsAlike(s[1..]))
    ensures EndsAlike(s)
  {
    assert SplitLines("") == [""];
    hide SplitLines, Prepend;
    SplitLetter(s);
    PrependLast(s[0], SplitLines(s[1..]));
  }

  lemma {:induction false} SplitEnd(s: string)
    requires s != "" && !IsBreak(Last(s))
    ensures EndsAlike(s)
  {
    hide SplitLines, Prepend;
    if |s| == 1 {
      EndOfLetter(s);
    } else if StartsWithPair(s) {
      SplitEnd(s[2..]);
      SplitPair(s);
    } else {
      SplitEnd(s[1..]);
      if IsBreak(s[0]) {
        SplitSingle(s);
      } else {
        EndOfLetter(s);
      }
    }
  }

  lemma NonBlankStep(lines: seq<string>)
    requires lines != []
    ensures NonBlank(lines) == if HasText(lines[0]) then [lines[0]] + NonBlank(lines[1..]) else NonBlank(lines[1..])
  {
  }

  /** A line in front is kept, or not, whatever follows. */
  lemma NonBlankCons(line: string, rest: seq<string>)
    ensures NonBlank([line] + rest) == (if HasText(line) then [line] else []) + NonBlank(rest)
  {
    hide HasText;
    NonBlankStep([line] + rest);
    assert ([line] + rest)[1..] == rest;
    assert [] + NonBlank(rest) == NonBlank(rest);
  }

  lemma Associative<T>(a: seq<T>, b: seq<T>, c: seq<T>)
    ensures a + (b + c) == (a + b) + c
  {
  }

  lemma NonBlankAppendStep(line: string, rest: seq<string>, b: seq<string>)
    requires NonBlank(rest + b) == NonBlank(rest) + NonBlank(b)
    ensures NonBlank([line] + (rest + b)) == NonBlank([line] + rest) + NonBlank(b)
  {
    NonBlankCons(line, rest);
    NonBlankCons(line, rest + b);
    Associative(if HasText(line) then [line] else [], NonBlank(rest), NonBlank(b));
    hide HasText, NonBlank;
  }

  lemma NonBlankOfNone(b: seq<string>)
    ensures NonBlank([] + b) == NonBlank([]) + NonBlank(b)
  {
    assert [] + b == b;
  }

  lemma {:induction false} NonBlankAppend(a: seq<string>, b: seq<string>)
    ensures NonBlank(a + b) == NonBlank(a) + NonBlank(b)
  {
    hide NonBlank;
    if a == [] {
      NonBlankOfNone(b);
    } else {
      NonBlankAppend(a[1..], b);
      NonBlankAppendStep(a[0], a[1..], b);
      assert [a[0]] + a[1..] == a;
      Associative([a[0]], a[1..], b);
    }
  }

  /** The non-blank lines of one printed row: the row itself, or at least two pieces of it. */
  function LinesOf(s: string): seq<string> {
    NonBlank(SplitLines(s))
  }

  lemma FirstLineHasText(s: string)
    requires s != "" && s[0] == '"'
    ensures HasText(SplitLines(s)[0])
  {
    hide SplitLines;
    SplitStart(s);
    TrimKeeps(SplitLines(s)[0], 0);
  }

  lemma LastLineHasText(s: string)
    requires s != "" && s[|s| - 1] == '"'
    ensures HasText(Last(SplitLines(s)))
  {
    hide SplitLines;
    SplitEnd(s);
    var last := Last(SplitLines(s));
    TrimKeeps(last, |last| - 1);
  }

  lemma QuotedLines(s: string)
    requires |s| >= 2 && s[0] == '"' && s[|s| - 1] == '"'
    ensures !HasBreak(s) ==> LinesOf(s) == [s]
    ensures HasBreak(s) ==> |LinesOf(s)| >= 2
  {
    hide HasText, SplitLines, HasBreak, EndsAlike;
    SplitUnbroken(s);
    var r := SplitLines(s);
    assert HasText(r[0]) by { FirstLineHasText(s); }
    assert HasText(r[|r| - 1]) by { LastLineHasText(s); }
    if HasBreak(s) {
      var n := |r| - 1;
      assert r == r[..n] + [r[n]] && r[..n] == [r[0]] + r[1..n];
      NonBlankAppend(r[..n], [r[n]]);
    }
  }

  lemma {:induction false} RowIsQuoted(row: Row)
    requires row != []
    ensures var s := PrintRow(row); |s| >= 2 && s[0] == '"' && s[|s| - 1] == '"'
  {
    assert Escaped(row)[0] == EscapeCsv(row[0]);
    if |row| > 1 {
      assert Escaped(row)[1..] == Escaped(row[1..]);
      RowIsQuoted(row[1..]);
    }
  }

  ghost predicate CellBreaks(cell: Option<string>) {
    HasBreak(ValueOf(cell))
  }

  ghost predicate RowBreaks(row: Row) {
    exists j :: 0 <= j < |row| && CellBreaks(row[j])
  }

  lemma {:induction false} DoublingKeepsBreaks(s: string)
    ensures HasBreak(DoubleQuotes(s)) <==> HasBreak(s)
  {
    if s != "" {
      DoublingKeepsBreaks(s[1..]);
      var c := if s[0] == '"' then "\"\"" else [s[0]];
      BreaksAppend(c, DoubleQuotes(s[1..]));
      BreaksAppend([s[0]], s[1..]);
      assert s == [s[0]] + s[1..];
      assert HasBreak(c) <==> HasBreak([s[0]]) by { assert c[0] == s[0] == [s[0]][0]; }
    }
  }

  lemma CellBreaksIffValueDoes(cell: Option<string>)
    ensures HasBreak(EscapeCsv(cell)) <==> CellBreaks(cell)
  {
    var v := ValueOf(cell);
    assert EscapeCsv(cell) == "\"" + DoubleQuotes(v) + "\"";
    BreaksAppend("\"" + DoubleQuotes(v), "\"");
    BreaksAppend("\"", DoubleQuotes(v));
    DoublingKeepsBreaks(v);
  }

  lemma {:induction false} RowBreaksIffCellDoes(row: Row)
    requires row != []
    ensures HasBreak(PrintRow(row)) <==> RowBreaks(row)
  {
    CellBreaksIffValueDoes(row[0]);
    if |row| == 1 {
      assert Escaped(row) == [EscapeCsv(row[0])];
    } else {
      RowBreaksIffCellDoes(row[1..]);
      assert Escaped(row)[1..] == Escaped(row[1..]);
      assert PrintRow(row) == EscapeCsv(row[0]) + [','] + PrintRow(row[1..]);
      BreaksAppend(EscapeCsv(row[0]) + [','], PrintRow(row[1..]));
      BreaksAppend(EscapeCsv(row[0]), [',']);
      RowBreaksTail(row);
    }
  }

  lemma RowBreaksTail(row: Row)
    requires row != []
    ensures RowBreaks(row) <==> CellBreaks(row[0]) || RowBreaks(row[1..])
  {
    if j :| 0 <= j < |row| && CellBreaks(row[j]) { assert j == 0 || CellBreaks(row[1..][j - 1]); }
    if j :| 0 <= j < |row[1..]| && CellBreaks(row[1..][j]) { assert CellBreaks(row[j + 1]); }
  }

  function AllLines(rows: seq<Row>): seq<string> {
    if rows == [] then [] else LinesOf(PrintRow(rows[0])) + AllLines(rows[1..])
  }

  lemma {:induction false} LinesOfRows(first: string, rows: seq<Row>)
    ensures LinesOf(first + PrintRows(rows)) == LinesOf(first) + AllLines(rows)
    decreases rows
  {
    hide PrintRow, SplitLines, NonBlank;
    if rows == [] {
      assert first + "" == first;
    } else {
      var rest := PrintRow(rows[0]) + PrintRows(rows[1..]);
      assert first + PrintRows(rows) == first + "\r\n" + rest;
      SplitAtBreak(first, rest);
      NonBlankAppend(SplitLines(first), SplitLines(rest));
      LinesOfRows(PrintRow(rows[0]), rows[1..]);
    }
  }

  /** One line per row, unless some row breaks: then there are more. */
  lemma {:induction false} RowsHaveLines(rows: seq<Row>)
    requires forall i | 0 <= i < |rows| :: rows[i] != []
    ensures |rows| <= |AllLines(rows)|
    ensures |AllLines(rows)| == |rows| <==> forall i | 0 <= i < |rows| :: !RowBreaks(rows[i])
    ensures |AllLines(rows)| == |rows| ==> forall i | 0 <= i < |rows| :: AllLines(rows)[i] == PrintRow(rows[i])
  {
    hide PrintRow, LinesOf, RowBreaks;
    if rows != [] {
      RowIsQuoted(rows[0]);
      QuotedLines(PrintRow(rows[0]));
      RowBreaksIffCellDoes(rows[0]);
      RowsHaveLines(rows[1..]);
      assert rows == [rows[0]] + rows[1..];
    }
  }

  // ---- the records

  /** The name under which the parser files a column. */
  function Key(name: string): string {
    ToLower(Trim(name))
  }

  ghost predicate IsGoodHeader(header: seq<string>) {
    && header != [] && (forall i | 0 <= i < |header| :: IsPlain(header[i]))
    && HasText(Join(header, ','))
    && forall i, j | 0 <= i < j < |header| :: Key(header[i]) != Key(header[j])
  }

  /** Every column of the printed row is there, trimmed, under its key, and nothing else is. */
  ghost predicate IsRecordOf(record: CsvRow, header: seq<string>, row: Row)
    requires |row| == |header|
  {
    && (forall k :: k in record <==> exists j :: 0 <= j < |header| && k == Key(header[j]))
    && forall j | 0 <= j < |header| :: Key(header[j]) in record && record[Key(header[j])] == Trim(ValueOf(row[j]))
  }

  /** Column `j` is the last one with this header. */
  predicate IsLastOf(headers: seq<string>, k: string, j: nat) {
    j < |headers| && headers[j] == k && forall i | j < i < |headers| :: headers[i] != k
  }

  /** Under each header the record has the cell of the last column with that header, or nothing when the line has no
      such cell, and under no other name it has anything. */
  lemma {:induction false} RecordHas(headers: seq<string>, cells: seq<string>, k: string)
    ensures k in Record(headers, cells) <==> exists j: nat :: IsLastOf(headers, k, j)
    ensures forall j: nat | IsLastOf(headers, k, j) ::
              k in Record(headers, cells) && Record(headers, cells)[k] == if j < |cells| then cells[j] else ""
  {
    if headers != [] {
      var n := |headers| - 1;
      RecordHas(headers[..n], cells, k);
      if headers[n] == k {
        assert IsLastOf(headers, k, n);
      } else {
        forall j: nat ensures IsLastOf(headers, k, j) <==> IsLastOf(headers[..n], k, j) {
          LastOfPrefix(headers, k, j);
        }
        hide IsLastOf;
      }
    }
  }

  lemma LastOfPrefix(headers: seq<string>, k: string, j: nat)
    requires headers != [] && headers[|headers| - 1] != k
    ensures IsLastOf(headers, k, j) <==> IsLastOf(headers[..|headers| - 1], k, j)
  {
  }

  lemma RecordColumns(headers: seq<string>, cells: seq<string>)
    requires |headers| <= |cells| && forall i, j | 0 <= i < j < |headers| :: headers[i] != headers[j]
    ensures forall k :: k in Record(headers, cells) <==> exists j :: 0 <= j < |headers| && k == headers[j]
    ensures forall j | 0 <= j < |headers| ::
              headers[j] in Record(headers, cells) && Record(headers, cells)[headers[j]] == cells[j]
  {
    hide Record;
    forall k ensures k in Record(headers, cells) <==> exists j :: 0 <= j < |headers| && k == headers[j] {
      RecordHas(headers, cells, k);
      if j :| 0 <= j < |headers| && k == headers[j] { assert IsLastOf(headers, k, j); }
    }
    forall j | 0 <= j < |headers|
      ensures headers[j] in Record(headers, cells) && Record(headers, cells)[headers[j]] == cells[j]
    {
      RecordHas(headers, cells, headers[j]);
      assert IsLastOf(headers, headers[j], j);
    }
  }

  lemma TrimmedRowIsRecord(header: seq<string>, row: Row)
    requires IsGoodHeader(header) && |row| == |header|
    ensures IsRecordOf(Record(Lowered(Trimmed(header)), Trimmed(Values(row))), header, row)
  {
    hide IsPlain, Join, Trim, ToLower, Record;
    var headers, cells := Lowered(Trimmed(header)), Trimmed(Values(row));
    assert forall j | 0 <= j < |header| :: headers[j] == Key(header[j]) && cells[j] == Trim(ValueOf(row[j]));
    hide Key;
    RecordColumns(headers, cells);
  }

  lemma PrintedRowIsRecord(header: seq<string>, row: Row)
    requires IsGoodHeader(header) && |row| == |header|
    ensures IsRecordOf(Record(Lowered(LineCells(Join(header, ','))), LineCells(PrintRow(row))), header, row)
  {
    hide Scan, Join, IsPlain, PrintRow, Record, IsRecordOf;
    assert forall h | h in header :: IsPlain(h);
    TrimmedRowIsRecord(header, row);
    ScanHeader(header, []);
    ScanRow(row, []);
    assert [] + header == header && [] + Values(row) == Values(row);
  }

  ghost predicate IsRoundTrip(header: seq<string>, rows: seq<Row>, records: seq<CsvRow>)
    requires forall i | 0 <= i < |rows| :: |rows[i]| == |header|
  {
    |records| == |rows| && forall i | 0 <= i < |rows| :: IsRecordOf(records[i], header, rows[i])
  }

  lemma ParsedExport(header: seq<string>, rows: seq<Row>)
    requires IsGoodHeader(header)
    ensures Parsed(PrintCsv(header, rows)) == Records(Lowered(LineCells(Join(header, ','))), AllLines(rows))
  {
    var line := Join(header, ',');
    HeaderHasNoBreak(header);
    SplitUnbroken(line);
    assert SplitLines(line) == [line] && [line][1..] == [];
    assert LinesOf(line) == [line] + NonBlank([]);
    LinesOfRows(line, rows);
    hide IsGoodHeader, SplitLines, NonBlank, AllLines, LineCells, PrintRows;
    var lines := NonBlank(SplitLines(PrintCsv(header, rows)));
    assert lines == [line] + AllLines(rows) && lines[1..] == AllLines(rows);
  }

  /** The round trip, and exactly when it holds: parsing the printed text gives one record per row with every
      cell trimmed, for all uses of quotes and commas, if and only if no cell contains a line break. */
  lemma RoundTripIffNoBreaks(header: seq<string>, rows: seq<Row>)
    requires IsGoodHeader(header) && forall i | 0 <= i < |rows| :: |rows[i]| == |header|
    ensures IsRoundTrip(header, rows, Parsed(PrintCsv(header, rows)))
            <==> forall i | 0 <= i < |rows| :: !RowBreaks(rows[i])
    ensures |rows| <= |Parsed(PrintCsv(header, rows))|
  {
    ParsedExport(header, rows);
    RowsHaveLines(rows);
    forall i | 0 <= i < |rows|
      ensures IsRecordOf(Record(Lowered(LineCells(Join(header, ','))), LineCells(PrintRow(rows[i]))), header, rows[i])
    {
      PrintedRowIsRecord(header, rows[i]);
    }
    hide IsGoodHeader, RowBreaks, PrintRow, Record, LineCells, Join, IsRecordOf, Parsed, PrintCsv, AllLines;
  }

  lemma {:induction false} HeaderHasNoBreak(header: seq<string>)
    requires forall i | 0 <= i < |header| :: IsPlain(header[i])
    ensures !HasBreak(Join(header, ','))
  {
    if |header| > 1 {
      HeaderHasNoBreak(header[1..]);
      BreaksAppend(header[0] + [','], Join(header[1..], ','));
      BreaksAppend(header[0], [',']);
    }
  }

  /** The header of the export is a good one, so every export without line breaks in its cells reads back. */
  const EXPORT_HEADER: seq<string> :=
    ["Attendee Name", "Club Name", "Check-in Method", "Checked In At (IST)", "Checked In By ID"]

  lemma ExportHeaderIsPlain()
    ensures forall i | 0 <= i < |EXPORT_HEADER| :: IsPlain(EXPORT_HEADER[i])
  {
  }

  lemma KeyOfTrimmed(name: string)
    requires IsTrimmed(name)
    ensures |Key(name)| == |name|
  {
  }

  lemma ExportHeaderLengths()
    ensures |EXPORT_HEADER| == 5
    ensures forall i | 0 <= i < 5 :: |Key(EXPORT_HEADER[i])| == [13, 9, 15, 19, 16][i]
  {
    hide Key;
    forall i | 0 <= i < 5 ensures |Key(EXPORT_HEADER[i])| == [13, 9, 15, 19, 16][i] {
      assert IsTrimmed(EXPORT_HEADER[i]) && |EXPORT_HEADER[i]| == [13, 9, 15, 19, 16][i];
      KeyOfTrimmed(EXPORT_HEADER[i]);
    }
  }

  lemma ExportHeaderIsNotBlank()
    ensures HasText(Join(EXPORT_HEADER, ','))
  {
    assert Join(EXPORT_HEADER, ',')[0] == EXPORT_HEADER[0][0] == 'A';
    TrimKeeps(Join(EXPORT_HEADER, ','), 0);
  }

  lemma ExportHeaderIsGood()
    ensures IsGoodHeader(EXPORT_HEADER)
  {
    ExportHeaderIsPlain();
    ExportHeaderLengths();
    ExportHeaderIsNotBlank();
    hide IsPlain, Join, EXPORT_HEADER, HasText, Key;
  }
}
