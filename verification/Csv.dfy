/** The CSV printer of `exportCheckinsCsv` and the CSV parser of `src/members/csv.util.ts`. */
module Csv {
  import opened Text

  // ---- printing

  /** `s.replace(/"/g, '""')`. */
  function DoubleQuotes(s: string): string {
    if s == "" then "" else (if s[0] == '"' then "\"\"" else [s[0]]) + DoubleQuotes(s[1..])
  }

  function EscapeCsv(val: Option<string>): string {
    match val
    case None => "\"\""
    case Some(s) => "\"" + DoubleQuotes(s) + "\""
  }

  type Row = seq<Option<string>>

  function Escaped(row: Row): (r: seq<string>)
    ensures |r| == |row| && forall i | 0 <= i < |row| :: r[i] == EscapeCsv(row[i])
  {
    seq(|row|, i requires 0 <= i < |row| => EscapeCsv(row[i]))
  }

  function PrintRow(row: Row): string {
    Join(Escaped(row), ',')
  }

  /** The header is printed as it is, each row with every cell quoted. */
  function PrintCsv(header: seq<string>, rows: seq<Row>): string {
    Join(header, ',') + PrintRows(rows)
  }

  function PrintRows(rows: seq<Row>): string {
    if rows == [] then "" else "\r\n" + PrintRow(rows[0]) + PrintRows(rows[1..])
  }

  // ---- parsing one line

  /** What the index loop of `parseLine` still yields for the rest `s` of the line. */
  function Scan(s: string, current: string, inQuotes: bool, cells: seq<string>): seq<string> {
    if s == "" then cells + [current]
    else if inQuotes then
      if s[0] == '"' && |s| > 1 && s[1] == '"' then Scan(s[2..], current + ['"'], true, cells)
      else if s[0] == '"' then Scan(s[1..], current, false, cells)
      else Scan(s[1..], current + [s[0]], true, cells)
    else if s[0] == '"' then Scan(s[1..], current, true, cells)
    else if s[0] == ',' then Scan(s[1..], "", false, cells + [current])
    else Scan(s[1..], current + [s[0]], false, cells)
  }

  function Trimmed(cells: seq<string>): (r: seq<string>)
    ensures |r| == |cells| && forall i | 0 <= i < |cells| :: r[i] == Trim(cells[i])
  {
    seq(|cells|, i requires 0 <= i < |cells| => Trim(cells[i]))
  }

  function LineCells(line: string): seq<string> {
    Trimmed(Scan(line, "", false, []))
  }

  method ParseLine(line: string) returns (r: seq<string>)
    ensures r == LineCells(line)
  {
    var cells: seq<string> := [];
    var current := "";
    var inQuotes := false;
    var i := 0;
    while i < |line|
      invariant 0 <= i <= |line|
      invariant Scan(line[i..], current, inQuotes, cells) == Scan(line, "", false, [])
    {
      var c := line[i];
      if inQuotes {
        if c == '"' && i + 1 < |line| && line[i + 1] == '"' {
          assert line[i..][2..] == line[i + 2..];
          current := current + ['"'];
          i := i + 1;
        } else if c == '"' {
          inQuotes := false;
        } else {
          current := current + [c];
        }
      } else if c == '"' {
        inQuotes := true;
      } else if c == ',' {
        cells := cells + [current];
        current := "";
      } else {
        current := current + [c];
      }
      i := i + 1;
    }
    cells := cells + [current];
    r := Trimmed(cells);
  }

  // ---- parsing the text

  predicate IsBreak(c: char) {
    c == '\r' || c == '\n'
  }

  /** `csv.split(/\r\n|\r|\n/)`. */
  function SplitLines(s: string): (r: seq<string>)
    ensures |r| >= 1
  {
    if s == "" then [""]
    else if s[0] == '\r' && |s| > 1 && s[1] == '\n' then [""] + SplitLines(s[2..])
    else if IsBreak(s[0]) then [""] + SplitLines(s[1..])
    else Prepend(s[0], SplitLines(s[1..]))
  }

  /** The next letter goes to the front of the first line. */
  function Prepend(c: char, lines: seq<string>): (r: seq<string>)
    requires |lines| >= 1
    ensures |r| == |lines|
  {
    [[c] + lines[0]] + lines[1..]
  }

  predicate HasText(line: string) {
    Trim(line) != ""
  }

  function NonBlank(lines: seq<string>): seq<string> {
    if lines == [] then []
    else if HasText(lines[0]) then [lines[0]] + NonBlank(lines[1..])
    else NonBlank(lines[1..])
  }

  function Lowered(cells: seq<string>): (r: seq<string>)
    ensures |r| == |cells| && forall i | 0 <= i < |cells| :: r[i] == ToLower(cells[i])
  {
    seq(|cells|, i requires 0 <= i < |cells| => ToLower(cells[i]))
  }

  type CsvRow = map<string, string>

  /** A record: a later header of the same name overwrites an earlier one, a missing cell reads as empty. */
  function Record(headers: seq<string>, cells: seq<string>): CsvRow {
    if headers == [] then map[]
    else
      var n := |headers| - 1;
      Record(headers[..n], cells)[headers[n] := if n < |cells| then cells[n] else ""]
  }

  function Records(headers: seq<string>, lines: seq<string>): (r: seq<CsvRow>)
    ensures |r| == |lines| && forall i | 0 <= i < |lines| :: r[i] == Record(headers, LineCells(lines[i]))
  {
    seq(|lines|, i requires 0 <= i < |lines| => Record(headers, LineCells(lines[i])))
  }

  function Parsed(csv: string): seq<CsvRow> {
    var lines := NonBlank(SplitLines(csv));
    if lines == [] then [] else Records(Lowered(LineCells(lines[0])), lines[1..])
  }

  /** The `headers.forEach` of `parseCsv`. */
  method ReadRecord(headers: seq<string>, cells: seq<string>) returns (row: CsvRow)
    ensures row == Record(headers, cells)
  {
    row := map[];
    for index := 0 to |headers|
      invariant row == Record(headers[..index], cells)
    {
      assert headers[..index + 1][..index] == headers[..index];
      row := row[headers[index] := if index < |cells| then cells[index] else ""];
    }
    assert headers[..|headers|] == headers;
  }

  method ParseCsv(csv: string) returns (rows: seq<CsvRow>)
    ensures rows == Parsed(csv)
  {
    hide SplitLines, NonBlank, LineCells, Record;
    var lines := NonBlank(SplitLines(csv));
    rows := [];
    if lines == [] { return; }
    var first := ParseLine(lines[0]);
    var headers := Lowered(first);
    for k := 1 to |lines|
      invariant |rows| == k - 1
      invariant forall j | 0 <= j < |rows| :: rows[j] == Record(headers, LineCells(lines[j + 1]))
    {
      var cells := ParseLine(lines[k]);
      var row := ReadRecord(headers, cells);
      rows := rows + [row];
    }
    assert rows == Records(headers, lines[1..]);
  }
}
