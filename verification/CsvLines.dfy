/** What `parseLine` of `src/members/csv.util.ts` reads from a line, told from how the line is spelled. */
module CsvLines {
  import opened Text
  import opened Csv

  /** A stretch of a cell: letters as they are, or in quotes. */
  datatype Piece = Bare(text: string) | Quoted(text: string)

  type Cell = seq<Piece>

  function PieceText(p: Piece): string {
    match p
    case Bare(text) => text
    case Quoted(text) => "\"" + DoubleQuotes(text) + "\""
  }

  function CellText(c: Cell): string {
    if c == [] then "" else PieceText(c[0]) + CellText(c[1..])
  }

  function CellValue(c: Cell): string {
    if c == [] then "" else c[0].text + CellValue(c[1..])
  }

  predicate StartsWithQuote(s: string) {
    s != "" && s[0] == '"'
  }

  /** With `rest` behind it the text of the cell can be read in one way only: commas and quotes stand in quotes, and
      behind a closing quote there is no other one. */
  predicate IsCell(c: Cell, rest: string) {
    c != [] ==>
      && (if c[0].Bare? then ',' !in c[0].text && '"' !in c[0].text else !StartsWithQuote(CellText(c[1..]) + rest))
      && IsCell(c[1..], rest)
  }

  /** A quote that is opened in the last cell and never closed. */
  function Tail(open: Option<string>): string {
    match open
    case None => ""
    case Some(text) => "\"" + DoubleQuotes(text)
  }

  function Line(cells: seq<Cell>, open: Option<string>): string
    requires cells != []
  {
    if |cells| == 1 then CellText(cells[0]) + Tail(open)
    else CellText(cells[0]) + ([','] + Line(cells[1..], open))
  }

  predicate IsLine(cells: seq<Cell>, open: Option<string>): (r: bool)
    ensures r ==> cells != []
  {
    && cells != []
    && if |cells| == 1 then IsCell(cells[0], Tail(open)) else IsCell(cells[0], ",") && IsLine(cells[1..], open)
  }

  function LineValues(cells: seq<Cell>, open: Option<string>): seq<string>
    requires cells != []
  {
    if |cells| == 1 then [CellValue(cells[0]) + if open.Some? then open.value else ""]
    else [CellValue(cells[0])] + LineValues(cells[1..], open)
  }

  // ---- reading

  /** Inside quotes, the doubled text is read back letter by letter up to the closing quote. */
  lemma {:induction false} ScanQuoted(v: string, rest: string, current: string, cells: seq<string>)
    requires !StartsWithQuote(rest)
    ensures Scan(DoubleQuotes(v) + "\"" + rest, current, true, cells) == Scan(rest, current + v, false, cells)
  {
    var s := DoubleQuotes(v) + "\"" + rest;
    if v == "" {
      assert s[1..] == rest && current + v == current;
    } else if v[0] == '"' {
      assert s[2..] == DoubleQuotes(v[1..]) + "\"" + rest;
      assert current + v == current + ['"'] + v[1..];
      ScanQuoted(v[1..], rest, current + ['"'], cells);
    } else {
      assert s[1..] == DoubleQuotes(v[1..]) + "\"" + rest;
      assert current + v == current + [v[0]] + v[1..];
      ScanQuoted(v[1..], rest, current + [v[0]], cells);
    }
  }

  /** Without a closing quote, to the end of the line. */
  lemma {:induction false} ScanUnclosed(v: string, current: string, cells: seq<string>)
    ensures Scan(DoubleQuotes(v), current, true, cells) == cells + [current + v]
  {
    var s := DoubleQuotes(v);
    if v == "" {
      assert current + v == current;
    } else if v[0] == '"' {
      assert s[2..] == DoubleQuotes(v[1..]);
      assert current + v == current + ['"'] + v[1..];
      ScanUnclosed(v[1..], current + ['"'], cells);
    } else {
      assert s[1..] == DoubleQuotes(v[1..]);
      assert current + v == current + [v[0]] + v[1..];
      ScanUnclosed(v[1..], current + [v[0]], cells);
    }
  }

  lemma {:induction false} ScanBare(text: string, rest: string, current: string, cells: seq<string>)
    requires ',' !in text && '"' !in text
    ensures Scan(text + rest, current, false, cells) == Scan(rest, current + text, false, cells)
  {
    if text == "" {
      assert text + rest == rest && current + text == current;
    } else {
      assert (text + rest)[1..] == text[1..] + rest;
      ScanBare(text[1..], rest, current + [text[0]], cells);
      assert current + text == current + [text[0]] + text[1..];
    }
  }

  lemma ScanOpen(s: string, current: string, cells: seq<string>)
    requires StartsWithQuote(s)
    ensures Scan(s, current, false, cells) == Scan(s[1..], current, true, cells)
  {
  }

  lemma ScanComma(rest: string, current: string, cells: seq<string>)
    ensures Scan([','] + rest, current, false, cells) == Scan(rest, "", false, cells + [current])
  {
    assert ([','] + rest)[1..] == rest;
  }

  lemma ScanEnd(current: string, cells: seq<string>)
    ensures Scan("", current, false, cells) == cells + [current]
  {
  }

  lemma ScanPiece(p: Piece, rest: string, current: string, cells: seq<string>)
    requires if p.Bare? then ',' !in p.text && '"' !in p.text else !StartsWithQuote(rest)
    ensures Scan(PieceText(p) + rest, current, false, cells) == Scan(rest, current + p.text, false, cells)
  {
    hide Scan, DoubleQuotes;
    match p {
      case Bare(text) => ScanBare(text, rest, current, cells);
      case Quoted(text) =>
        var s := PieceText(p) + rest;
        assert s[1..] == DoubleQuotes(text) + "\"" + rest;
        ScanOpen(s, current, cells);
        ScanQuoted(text, rest, current, cells);
    }
  }

  /** A cell is read piece by piece, wherever in it the quotes are. */
  lemma {:induction false} ScanCell(c: Cell, rest: string, current: string, cells: seq<string>)
    requires IsCell(c, rest)
    ensures Scan(CellText(c) + rest, current, false, cells) == Scan(rest, current + CellValue(c), false, cells)
  {
    hide Scan, PieceText;
    if c == [] {
      assert CellText(c) + rest == rest && current + CellValue(c) == current;
    } else {
      ScanPiece(c[0], CellText(c[1..]) + rest, current, cells);
      ScanCell(c[1..], rest, current + c[0].text, cells);
      assert CellText(c) + rest == PieceText(c[0]) + (CellText(c[1..]) + rest);
      assert current + CellValue(c) == current + c[0].text + CellValue(c[1..]);
    }
  }

  lemma {:induction false} CellBeforeComma(c: Cell, rest: string)
    requires IsCell(c, ",")
    ensures IsCell(c, [','] + rest)
  {
    hide CellText;
    if c != [] { CellBeforeComma(c[1..], rest); }
  }

  lemma ScanLast(c: Cell, open: Option<string>, cells: seq<string>)
    requires IsCell(c, Tail(open))
    ensures Scan(CellText(c) + Tail(open), "", false, cells) == cells + LineValues([c], open)
  {
    hide Scan, CellText, CellValue, DoubleQuotes, IsCell;
    var v := CellValue(c);
    ScanCell(c, Tail(open), "", cells);
    assert "" + v == v && v + "" == v;
    match open {
      case None => ScanEnd(v, cells);
      case Some(text) =>
        assert Tail(open)[1..] == DoubleQuotes(text);
        ScanOpen(Tail(open), v, cells);
        ScanUnclosed(text, v, cells);
    }
  }

  /** A whole line is read cell by cell. */
  lemma {:induction false} ScanLine(line: seq<Cell>, open: Option<string>, cells: seq<string>)
    requires IsLine(line, open)
    ensures Scan(Line(line, open), "", false, cells) == cells + LineValues(line, open)
  {
    hide Scan, CellText, CellValue, Tail, IsCell;
    if |line| == 1 {
      assert line == [line[0]];
      ScanLast(line[0], open, cells);
    } else {
      var v := CellValue(line[0]);
      var rest := Line(line[1..], open);
      CellBeforeComma(line[0], rest);
      ScanCell(line[0], [','] + rest, "", cells);
      assert "" + v == v;
      ScanComma(rest, v, cells);
      ScanLine(line[1..], open, cells + [v]);
      assert cells + [v] + LineValues(line[1..], open) == cells + LineValues(line, open);
    }
  }

  /** So a line parses to the values of its cells, trimmed. */
  lemma LineParses(cells: seq<Cell>, open: Option<string>)
    requires IsLine(cells, open)
    ensures LineCells(Line(cells, open)) == Trimmed(LineValues(cells, open))
  {
    hide Scan, Line, LineValues, IsLine;
    ScanLine(cells, open, []);
    assert [] + LineValues(cells, open) == LineValues(cells, open);
  }

  lemma OnePieceFirst(p: Piece, c: Cell, rest: string)
    ensures CellText([p] + c) == PieceText(p) + CellText(c) && CellValue([p] + c) == p.text + CellValue(c)
    ensures IsCell([p] + c, rest) <==>
            && (if p.Bare? then ',' !in p.text && '"' !in p.text else !StartsWithQuote(CellText(c) + rest))
            && IsCell(c, rest)
  {
    hide PieceText;
    assert ([p] + c)[1..] == c && ([p] + c)[0] == p;
  }

  /** For example cells with text around one stretch in quotes. */
  lemma SurroundedIsCell(u: string, v: string, t: string, rest: string)
    requires ',' !in u && '"' !in u && ',' !in t && '"' !in t && !StartsWithQuote(rest)
    ensures var c := [Bare(u)] + ([Quoted(v)] + ([Bare(t)] + []));
            && IsCell(c, rest) && CellText(c) == u + ("\"" + DoubleQuotes(v) + "\"") + t && CellValue(c) == u + v + t
  {
    var c1 := [Bare(t)] + [];
    var c2 := [Quoted(v)] + c1;
    var q := PieceText(Quoted(v));
    OnePieceFirst(Bare(t), [], rest);
    OnePieceFirst(Quoted(v), c1, rest);
    OnePieceFirst(Bare(u), c2, rest);
    EmptyCell(rest);
    assert q == "\"" + DoubleQuotes(v) + "\"" by { QuotedText(v); }
    BareText(u);
    BareText(t);
    hide IsCell, CellText, CellValue, PieceText, DoubleQuotes;
    Around(u, q, t, rest);
    Around(u, v, t, rest);
  }

  lemma EmptyCell(rest: string)
    ensures CellText([]) == "" && CellValue([]) == "" && IsCell([], rest)
  {
  }

  lemma Around(u: string, q: string, t: string, rest: string)
    requires '"' !in t && !StartsWithQuote(rest)
    ensures u + (q + (t + "")) == u + q + t && !StartsWithQuote(t + "" + rest)
  {
  }

  lemma OneCellMore(c: Cell, cells: seq<Cell>, open: Option<string>)
    requires IsLine(cells, open) && IsCell(c, ",")
    ensures IsLine([c] + cells, open) && Line([c] + cells, open) == CellText(c) + ([','] + Line(cells, open))
    ensures LineValues([c] + cells, open) == [CellValue(c)] + LineValues(cells, open)
  {
    hide IsCell, CellText, CellValue, Tail;
    assert ([c] + cells)[1..] == cells && ([c] + cells)[0] == c;
  }

  lemma OneCell(c: Cell)
    requires IsCell(c, "")
    ensures IsLine([c], None) && Line([c], None) == CellText(c) && LineValues([c], None) == [CellValue(c)]
  {
    hide IsCell, CellText, CellValue;
    assert CellText(c) + "" == CellText(c) && CellValue(c) + "" == CellValue(c);
  }

  /** A line is kept exactly when it has a letter that is not white space. */
  lemma HasTextIff(line: string)
    ensures HasText(line) <==> exists i :: 0 <= i < |line| && !IsSpace(line[i])
  {
    var a, b := TrimCuts(line);
    var t := Trim(line);
    hide Trim, IsSpace;
    if t != "" {
      assert line[|a|] == t[0] && !IsSpace(t[0]);
    } else {
      assert line == a + b;
      assert forall i | 0 <= i < |line| :: line[i] == if i < |a| then a[i] else b[i - |a|];
    }
  }

  // ---- every line is spelled so

  /** What stands in quotes: up to the closing one, or all of it. */
  lemma {:induction false} SplitQuoted(s: string) returns (v: string, closed: bool, rest: string)
    ensures if closed then s == DoubleQuotes(v) + "\"" + rest && !StartsWithQuote(rest) else s == DoubleQuotes(v)
  {
    if s == "" {
      v, closed, rest := "", false, "";
    } else if s[0] == '"' && |s| > 1 && s[1] == '"' {
      v, closed, rest := SplitQuoted(s[2..]);
      DoubleOneMore('"', v);
      assert s == "\"\"" + s[2..];
      v := ['"'] + v;
    } else if s[0] == '"' {
      v, closed, rest := "", true, s[1..];
      assert s == "\"" + rest;
    } else {
      v, closed, rest := SplitQuoted(s[1..]);
      DoubleOneMore(s[0], v);
      assert s == [s[0]] + s[1..];
      v := [s[0]] + v;
    }
  }

  lemma DoubleOneMore(c: char, v: string)
    ensures DoubleQuotes([c] + v) == (if c == '"' then "\"\"" else [c]) + DoubleQuotes(v)
  {
    assert ([c] + v)[1..] == v;
  }

  function Onto(p: Piece, cells: seq<Cell>): seq<Cell>
    requires cells != []
  {
    [[p] + cells[0]] + cells[1..]
  }

  /** A piece goes to the front of the first cell. */
  lemma OnePieceMore(p: Piece, cells: seq<Cell>, open: Option<string>)
    requires IsLine(cells, open)
    requires if p.Bare? then ',' !in p.text && '"' !in p.text else !StartsWithQuote(Line(cells, open))
    ensures IsLine(Onto(p, cells), open) && Line(Onto(p, cells), open) == PieceText(p) + Line(cells, open)
  {
    hide PieceText, Tail;
    var c := [p] + cells[0];
    assert c[0] == p && c[1..] == cells[0] && Onto(p, cells)[1..] == cells[1..];
    if |cells| > 1 {
      assert !StartsWithQuote(Line(cells, open)) ==> !StartsWithQuote(CellText(cells[0]) + ",");
    }
  }

  /** Every text is a line of cells, so the parser is right on every line. */
  lemma {:induction false} EveryLineHasCells(s: string) returns (cells: seq<Cell>, open: Option<string>)
    ensures IsLine(cells, open) && Line(cells, open) == s
    decreases |s|
  {
    hide IsLine, Line, DoubleQuotes, PieceText;
    if s == "" {
      cells, open := [[]], None;
      EmptyLine(None);
    } else if s[0] == ',' {
      cells, open := EveryLineHasCells(s[1..]);
      OneCellMore([], cells, open);
      cells := [[]] + cells;
      assert s == [','] + s[1..] && "" + s == s;
    } else if s[0] == '"' {
      var v, closed, rest := SplitQuoted(s[1..]);
      if closed {
        QuotedText(v);
        cells, open := EveryLineHasCells(rest);
        OnePieceMore(Quoted(v), cells, open);
        cells := Onto(Quoted(v), cells);
        assert s == "\"" + (DoubleQuotes(v) + "\"" + rest);
      } else {
        cells, open := [[]], Some(v);
        EmptyLine(open);
        assert s == "\"" + DoubleQuotes(v);
      }
    } else {
      cells, open := EveryLineHasCells(s[1..]);
      OnePieceMore(Bare([s[0]]), cells, open);
      BareText([s[0]]);
      cells := Onto(Bare([s[0]]), cells);
      assert s == [s[0]] + s[1..];
    }
  }

  lemma EmptyLine(open: Option<string>)
    ensures IsLine([[]], open) && Line([[]], open) == Tail(open)
  {
    assert "" + Tail(open) == Tail(open);
  }

  lemma QuotedText(v: string)
    ensures PieceText(Quoted(v)) == "\"" + DoubleQuotes(v) + "\""
  {
  }

  lemma BareText(text: string)
    ensures PieceText(Bare(text)) == text
  {
  }
}
