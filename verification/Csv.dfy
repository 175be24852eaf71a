/**
CSV export and import: printing rows as comma-separated lines (quoted as in section 2 of
RFC 4180, with spreadsheet formulas neutralised) and the character machine that reads them back.
*/
module Csv {
  import opened Results

  /** A value to print: absent, a string, or the text of a number, boolean or JSON object. */
  datatype Value = Absent | Text(text: string) | Rendered(text: string)

  datatype Row = Row(line: nat, cells: seq<string>)

  // ----- Printing ------------------------------------------------------------

  predicate IsSpace(c: char) {
    var n := c as int;
    || 0x9 <= n <= 0xD || n == 0x20 || n == 0xA0 || n == 0x1680 || 0x2000 <= n <= 0x200A
    || n == 0x2028 || n == 0x2029 || n == 0x202F || n == 0x205F || n == 0x3000 || n == 0xFEFF
  }

  predicate IsFormulaSign(c: char) {
    c == '=' || c == '+' || c == '-' || c == '@'
  }

  function SkipSpaces(text: string): string {
    if text != "" && IsSpace(text[0]) then SkipSpaces(text[1..]) else text
  }

  predicate LooksLikeFormula(text: string) {
    && text != ""
    && (IsFormulaSign(text[0]) || text[0] == '\t' || text[0] == '\r'
        || (IsSpace(text[0]) && SkipSpaces(text) != "" && IsFormulaSign(SkipSpaces(text)[0])))
  }

  function Neutralized(text: string): string {
    if LooksLikeFormula(text) then "'" + text else text
  }

  /** The text of one cell before quoting; this is what reading it back must give. */
  function CellText(value: Value): string {
    match value
    case Absent => ""
    case Text(text) => Neutralized(text)
    case Rendered(text) => text
  }

  predicate NeedsQuotes(text: string) {
    '"' in text || ',' in text || '\n' in text || '\r' in text
  }

  function Doubled(text: string): string {
    if text == "" then ""
    else if text[0] == '"' then "\"\"" + Doubled(text[1..])
    else [text[0]] + Doubled(text[1..])
  }

  function Quoted(text: string): string {
    if NeedsQuotes(text) then "\"" + Doubled(text) + "\"" else text
  }

  function CsvLine(values: seq<Value>): string {
    if values == [] then ""
    else if |values| == 1 then Quoted(CellText(values[0]))
    else Quoted(CellText(values[0])) + "," + CsvLine(values[1..])
  }

  function CsvText(rows: seq<seq<Value>>): string {
    if rows == [] then ""
    else if |rows| == 1 then CsvLine(rows[0])
    else CsvLine(rows[0]) + "\n" + CsvText(rows[1..])
  }

  // ----- Parsing --------------------------------------------------------------

  datatype Machine = Machine(rows: seq<Row>, row: seq<string>, cell: string, inQuotes: bool,
                             line: nat, rowLine: nat)

  const START := Machine([], [], "", false, 1, 1)

  function EndCell(m: Machine): Machine {
    m.(row := m.row + [m.cell], cell := "")
  }

  function EndRow(m: Machine): Machine {
    m.(rows := m.rows + [Row(m.rowLine, m.row + [m.cell])], row := [], cell := "",
       line := m.line + 1, rowLine := m.line + 1)
  }

  predicate StartsWith(c: char, text: string) {
    text != "" && text[0] == c
  }

  /** Runs the machine over the remaining text. */
  function Run(text: string, m: Machine): Machine
    decreases |text|
  {
    if text == "" then m
    else
      var c, rest := text[0], text[1..];
      if c == '"' then
        if m.inQuotes && StartsWith('"', rest) then Run(rest[1..], m.(cell := m.cell + "\""))
        else Run(rest, m.(inQuotes := !m.inQuotes))
      else if c == ',' && !m.inQuotes then Run(rest, EndCell(m))
      else if (c == '\n' || c == '\r') && !m.inQuotes then
        Run(if c == '\r' && StartsWith('\n', rest) then rest[1..] else rest, EndRow(m))
      else if c == '\r' && StartsWith('\n', rest) then
        Run(rest[1..], m.(line := m.line + 1, cell := m.cell + "\r\n"))
      else
        Run(rest, m.(line := if c == '\n' || c == '\r' then m.line + 1 else m.line, cell := m.cell + [c]))
  }

  function Finish(m: Machine): Result<seq<Row>> {
    if m.inQuotes then Err(BadRequest)
    else Ok(m.rows + [Row(m.rowLine, m.row + [m.cell])])
  }

  method ParseCsvCells(text: string) returns (r: Result<seq<Row>>)
    ensures r == Finish(Run(text, START))
  {
    var rows: seq<Row>, row: seq<string>, cell: string := [], [], "";
    var inQuotes := false;
    var line: nat, rowLine: nat := 1, 1;
    var index: nat := 0;
    assert text[0..] == text;
    while index < |text|
      invariant index <= |text|
      invariant Run(text[index..], Machine(rows, row, cell, inQuotes, line, rowLine)) == Run(text, START)
      decreases |text| - index
    {
      var c := text[index];
      ghost var rest := text[index..][1..];
      assert rest == text[index + 1..];
      var next := if index + 1 < |text| then Some(text[index + 1]) else None;
      if next.Some? {
        assert rest[1..] == text[index + 2..];
      }
      if c == '"' {
        if inQuotes && next == Some('"') {
          cell := cell + "\"";
          index := index + 1;
        } else {
          inQuotes := !inQuotes;
        }
      } else if c == ',' && !inQuotes {
        row := row + [cell];
        cell := "";
      } else if (c == '\n' || c == '\r') && !inQuotes {
        rows := rows + [Row(rowLine, row + [cell])];
        row, cell := [], "";
        if c == '\r' && next == Some('\n') {
          index := index + 1;
        }
        line := line + 1;
        rowLine := line;
      } else if inQuotes && c == '\r' && next == Some('\n') {
        line := line + 1;
        cell := cell + "\r\n";
        index := index + 1;
      } else {
        if c == '\n' || c == '\r' {
          line := line + 1;
        }
        cell := cell + [c];
      }
      index := index + 1;
    }
    assert text[index..] == "";
    if inQuotes {
      return Err(BadRequest);
    }
    rows := rows + [Row(rowLine, row + [cell])];
    r := Ok(rows);
  }

  // ----- Facts about every text ---------------------------------------------------

  function QuoteCount(text: string): nat {
    if text == "" then 0 else (if text[0] == '"' then 1 else 0) + QuoteCount(text[1..])
  }

  /** Line breaks, with a CRLF pair counted once. */
  function LineBreaks(text: string): nat {
    if text == "" then 0
    else if text[0] == '\r' && StartsWith('\n', text[1..]) then 1 + LineBreaks(text[2..])
    else (if text[0] == '\n' || text[0] == '\r' then 1 else 0) + LineBreaks(text[1..])
  }

  lemma {:induction false} RunQuotes(text: string, m: Machine)
    ensures Run(text, m).inQuotes <==> (m.inQuotes <==> QuoteCount(text) % 2 == 0)
    decreases |text|
  {
    if text != "" {
      var c, rest := text[0], text[1..];
      if c == '"' && m.inQuotes && StartsWith('"', rest) {
        RunQuotes(rest[1..], m.(cell := m.cell + "\""));
      } else if c == '"' {
        RunQuotes(rest, m.(inQuotes := !m.inQuotes));
      } else if c == ',' && !m.inQuotes {
        RunQuotes(rest, EndCell(m));
      } else if c == '\r' && StartsWith('\n', rest) {
        assert QuoteCount(rest) == QuoteCount(rest[1..]);
        RunQuotes(rest[1..], if m.inQuotes then m.(line := m.line + 1, cell := m.cell + "\r\n") else EndRow(m));
      } else if (c == '\n' || c == '\r') && !m.inQuotes {
        RunQuotes(rest, EndRow(m));
      } else {
        RunQuotes(rest, m.(line := if c == '\n' || c == '\r' then m.line + 1 else m.line, cell := m.cell + [c]));
      }
    }
  }

  /** A text is rejected exactly when it holds an odd number of quotes. */
  lemma {:induction false} RejectedIffQuotesUnbalanced(text: string)
    ensures Finish(Run(text, START)) == Err(BadRequest) <==> QuoteCount(text) % 2 == 1
  {
    RunQuotes(text, START);
  }

  // ----- Round trip ---------------------------------------------------------------

  predicate EndsCell(rest: string) {
    rest == "" || rest[0] == ',' || rest[0] == '\n'
  }

  // One step of the machine each.

  lemma RunNothing(m: Machine)
    ensures Run("", m) == m
  {
  }

  lemma RunOpeningQuote(rest: string, m: Machine)
    requires !m.inQuotes
    ensures Run("\"" + rest, m) == Run(rest, m.(inQuotes := true))
  {
    assert ("\"" + rest)[1..] == rest;
  }

  lemma RunComma(rest: string, m: Machine)
    requires !m.inQuotes
    ensures Run("," + rest, m) == Run(rest, EndCell(m))
  {
    assert ("," + rest)[1..] == rest;
  }

  lemma RunEscapedQuote(rest: string, m: Machine)
    requires m.inQuotes
    ensures Run("\"\"" + rest, m) == Run(rest, m.(cell := m.cell + "\""))
  {
    assert ("\"\"" + rest)[1..][1..] == rest;
  }

  lemma RunClosingQuote(rest: string, m: Machine)
    requires m.inQuotes && EndsCell(rest)
    ensures Run("\"" + rest, m) == Run(rest, m.(inQuotes := false))
  {
    assert ("\"" + rest)[1..] == rest;
  }

  lemma RunCrLf(rest: string, m: Machine)
    requires m.inQuotes
    ensures Run("\r\n" + rest, m) == Run(rest, m.(line := m.line + 1, cell := m.cell + "\r\n"))
  {
    var text := "\r\n" + rest;
    assert text[0] == '\r' && text[1] == '\n' && text[1..][1..] == rest;
  }

  lemma RunOther(c: char, rest: string, m: Machine)
    requires m.inQuotes && c != '"' && !(c == '\r' && StartsWith('\n', rest))
    ensures Run([c] + rest, m)
         == Run(rest, m.(line := if c == '\n' || c == '\r' then m.line + 1 else m.line, cell := m.cell + [c]))
  {
    assert ([c] + rest)[1..] == rest;
  }

  /** The doubled text followed by more text, written without reassociating. */
  function DoubledThen(text: string, rest: string): string {
    if text == "" then rest
    else if text[0] == '"' then "\"\"" + DoubledThen(text[1..], rest)
    else [text[0]] + DoubledThen(text[1..], rest)
  }

  lemma {:induction false} DoubledThenIsConcat(text: string, rest: string)
    ensures Doubled(text) + rest == DoubledThen(text, rest)
  {
    if text != "" {
      DoubledThenIsConcat(text[1..], rest);
    }
  }

  /** Inside quotes the doubled text is read back character by character, up to its closing quote. */
  lemma {:induction false} RunDoubled(text: string, rest: string, m: Machine)
    requires m.inQuotes && EndsCell(rest)
    ensures Run(DoubledThen(text, "\"" + rest), m)
         == Run(rest, m.(inQuotes := false, cell := m.cell + text, line := m.line + LineBreaks(text)))
    decreases |text|, 1
  {
    hide Run;
    if text == "" {
      RunClosingQuote(rest, m);
      assert m.cell + text == m.cell;
    } else if text[0] == '"' {
      RunEscapedQuote(DoubledThen(text[1..], "\"" + rest), m);
      RunDoubled(text[1..], rest, m.(cell := m.cell + "\""));
      assert m.cell + "\"" + text[1..] == m.cell + text;
    } else if text[0] == '\r' && StartsWith('\n', text[1..]) {
      RunDoubledCrLf(text, rest, m);
    } else {
      RunDoubledOther(text, rest, m);
    }
  }

  lemma {:induction false} DoubledCrLf(text: string, rest: string)
    requires text != "" && text[0] == '\r' && StartsWith('\n', text[1..])
    ensures |text| >= 2 && DoubledThen(text, rest) == "\r\n" + DoubledThen(text[2..], rest)
  {
    assert text[1..][1..] == text[2..];
    assert DoubledThen(text[1..], rest) == ['\n'] + DoubledThen(text[2..], rest);
  }

  lemma {:induction false} RunDoubledCrLf(text: string, rest: string, m: Machine)
    requires m.inQuotes && EndsCell(rest)
    requires text != "" && text[0] == '\r' && StartsWith('\n', text[1..])
    ensures Run(DoubledThen(text, "\"" + rest), m)
         == Run(rest, m.(inQuotes := false, cell := m.cell + text, line := m.line + LineBreaks(text)))
    decreases |text|, 0
  {
    hide *;
    DoubledCrLf(text, "\"" + rest);
    var tail := DoubledThen(text[2..], "\"" + rest);
    RunCrLf(tail, m);
    RunDoubled(text[2..], rest, m.(line := m.line + 1, cell := m.cell + "\r\n"));
    SplitCrLf(m.cell, text);
  }

  lemma {:induction false} SplitCrLf(cell: string, text: string)
    requires text != "" && text[0] == '\r' && StartsWith('\n', text[1..])
    ensures |text| >= 2 && cell + "\r\n" + text[2..] == cell + text
    ensures LineBreaks(text) == 1 + LineBreaks(text[2..])
  {
    assert text == "\r\n" + text[2..];
    assert cell + "\r\n" + text[2..] == cell + ("\r\n" + text[2..]);
  }

  lemma {:induction false} RunDoubledOther(text: string, rest: string, m: Machine)
    requires m.inQuotes && EndsCell(rest)
    requires text != "" && text[0] != '"' && !(text[0] == '\r' && StartsWith('\n', text[1..]))
    ensures Run(DoubledThen(text, "\"" + rest), m)
         == Run(rest, m.(inQuotes := false, cell := m.cell + text, line := m.line + LineBreaks(text)))
    decreases |text|, 0
  {
    hide Run;
    var c, tail := text[0], text[1..];
    var printed := DoubledThen(tail, "\"" + rest);
    assert StartsWith('\n', printed) ==> StartsWith('\n', tail);
    RunOther(c, printed, m);
    RunDoubled(tail, rest, m.(line := if c == '\n' || c == '\r' then m.line + 1 else m.line, cell := m.cell + [c]));
    assert m.cell + [c] + tail == m.cell + text;
  }

  lemma {:induction false} RunPlain(text: string, rest: string, m: Machine)
    requires !m.inQuotes && !NeedsQuotes(text)
    ensures Run(text + rest, m) == Run(rest, m.(cell := m.cell + text))
    ensures LineBreaks(text) == 0
  {
    if text == "" {
      assert text + rest == rest && m.cell + text == m.cell;
    } else {
      var c, tail := text[0], text[1..];
      assert c in text && (forall d | d in tail :: d in text);
      assert (text + rest)[1..] == tail + rest;
      RunPlain(tail, rest, m.(cell := m.cell + [c]));
      assert m.cell + [c] + tail == m.cell + text;
    }
  }

  lemma {:induction false} RunQuotedCell(text: string, rest: string, m: Machine)
    requires !m.inQuotes && m.cell == "" && EndsCell(rest)
    ensures Run("\"" + DoubledThen(text, "\"" + rest), m)
         == Run(rest, m.(cell := text, line := m.line + LineBreaks(text)))
  {
    hide Run;
    RunOpeningQuote(DoubledThen(text, "\"" + rest), m);
    RunDoubled(text, rest, m.(inQuotes := true));
    assert "" + text == text;
  }

  lemma {:induction false} QuotedIsConcat(text: string, rest: string)
    requires NeedsQuotes(text)
    ensures Quoted(text) + rest == "\"" + DoubledThen(text, "\"" + rest)
  {
    DoubledThenIsConcat(text, "\"" + rest);
    assert Quoted(text) + rest == "\"" + (Doubled(text) + ("\"" + rest));
  }

  lemma {:induction false} RunCell(text: string, rest: string, m: Machine)
    requires !m.inQuotes && m.cell == "" && EndsCell(rest)
    ensures Run(Quoted(text) + rest, m) == Run(rest, m.(cell := text, line := m.line + LineBreaks(text)))
  {
    hide Run;
    if NeedsQuotes(text) {
      QuotedIsConcat(text, rest);
      RunQuotedCell(text, rest, m);
    } else {
      RunPlain(text, rest, m);
      assert "" + text == text;
    }
  }

  predicate NoEmptyRow(rows: seq<seq<Value>>) {
    forall i | 0 <= i < |rows| :: rows[i] != []
  }

  function Texts(values: seq<Value>): seq<string> {
    seq(|values|, i requires 0 <= i < |values| => CellText(values[i]))
  }

  function Breaks(texts: seq<string>): nat {
    if texts == [] then 0 else LineBreaks(texts[0]) + Breaks(texts[1..])
  }

  /** The machine after a printed line: all cells of the row but the last, and that one as its current cell. */
  function AfterCells(texts: seq<string>, m: Machine): Machine
    requires texts != []
  {
    if |texts| == 1 then m.(cell := texts[0], line := m.line + LineBreaks(texts[0]))
    else AfterCells(texts[1..], m.(row := m.row + [texts[0]], line := m.line + LineBreaks(texts[0])))
  }

  lemma {:induction false} AfterCellsRow(texts: seq<string>, m: Machine)
    requires texts != []
    ensures AfterCells(texts, m)
         == m.(row := m.row + texts[..|texts| - 1], cell := texts[|texts| - 1], line := m.line + Breaks(texts))
  {
    if |texts| == 1 {
      assert m.row + texts[..0] == m.row && texts[1..] == [];
    } else {
      AfterCellsRow(texts[1..], m.(row := m.row + [texts[0]], line := m.line + LineBreaks(texts[0])));
      assert m.row + [texts[0]] + texts[1..][..|texts| - 2] == m.row + texts[..|texts| - 1];
    }
  }

  lemma {:induction false} RunLine(values: seq<Value>, rest: string, m: Machine)
    requires values != [] && !m.inQuotes && m.cell == "" && (rest == "" || rest[0] == '\n')
    ensures Run(CsvLine(values) + rest, m) == Run(rest, AfterCells(Texts(values), m))
    decreases |values|
  {
    hide Run, Quoted, LineBreaks;
    var text := CellText(values[0]);
    if |values| == 1 {
      assert CsvLine(values) == Quoted(text) && Texts(values) == [text];
      RunCell(text, rest, m);
    } else {
      LineSplits(values, rest);
      RunCellAndComma(text, CsvLine(values[1..]) + rest, m);
      RunLine(values[1..], rest, m.(row := m.row + [text], line := m.line + LineBreaks(text)));
      assert Texts(values[1..]) == Texts(values)[1..];
    }
  }

  lemma {:induction false} LineSplits(values: seq<Value>, rest: string)
    requires |values| > 1
    ensures CsvLine(values) + rest == Quoted(CellText(values[0])) + ("," + (CsvLine(values[1..]) + rest))
  {
  }

  lemma {:induction false} RunCellAndComma(text: string, rest: string, m: Machine)
    requires !m.inQuotes && m.cell == ""
    ensures Run(Quoted(text) + ("," + rest), m)
         == Run(rest, m.(row := m.row + [text], line := m.line + LineBreaks(text)))
  {
    hide Run;
    RunCell(text, "," + rest, m);
    RunComma(rest, m.(cell := text, line := m.line + LineBreaks(text)));
  }

  /** The rows a reader should see, each with the number of the line it starts on. */
  function ExpectedRows(rows: seq<seq<Value>>, line: nat): seq<Row> {
    if rows == [] then []
    else [Row(line, Texts(rows[0]))] + ExpectedRows(rows[1..], line + Breaks(Texts(rows[0])) + 1)
  }

  lemma {:induction false} RunRows(rows: seq<seq<Value>>, m: Machine)
    requires rows != [] && NoEmptyRow(rows)
    requires !m.inQuotes && m.cell == "" && m.row == [] && m.line == m.rowLine
    ensures Finish(Run(CsvText(rows), m)) == Ok(m.rows + ExpectedRows(rows, m.line))
    decreases |rows|
  {
    hide Run, CsvLine, Texts, Breaks;
    var values := rows[0];
    if |rows| == 1 {
      RunLastRow(values, m);
      assert ExpectedRows(rows, m.line) == [Row(m.line, Texts(values))];
    } else {
      var rest := CsvText(rows[1..]);
      TextSplits(rows, "");
      RunRow(values, rest, m);
      var next := m.line + Breaks(Texts(values)) + 1;
      RunRows(rows[1..], m.(rows := m.rows + [Row(m.line, Texts(values))], line := next, rowLine := next));
      assert m.rows + [Row(m.line, Texts(values))] + ExpectedRows(rows[1..], next) == m.rows + ExpectedRows(rows, m.line);
    }
  }

  lemma {:induction false} TextSplits(rows: seq<seq<Value>>, end: string)
    requires |rows| > 1
    ensures CsvText(rows) == CsvLine(rows[0]) + ("\n" + CsvText(rows[1..]))
    ensures CsvText(rows) + end == CsvLine(rows[0]) + ("\n" + (CsvText(rows[1..]) + end))
  {
    assert CsvText(rows) == CsvLine(rows[0]) + "\n" + CsvText(rows[1..]);
  }

  lemma {:induction false} RunLastRow(values: seq<Value>, m: Machine)
    requires values != [] && !m.inQuotes && m.cell == "" && m.row == []
    ensures Finish(Run(CsvLine(values), m)) == Ok(m.rows + [Row(m.rowLine, Texts(values))])
  {
    hide Run;
    var texts := Texts(values);
    assert CsvLine(values) + "" == CsvLine(values);
    RunNothing(AfterCells(texts, m));
    RunLine(values, "", m);
    AfterCellsRow(texts, m);
    assert [] + texts[..|values| - 1] + [texts[|values| - 1]] == texts;
  }

  /** A printed line and its line feed add one row. */
  lemma {:induction false} RunRow(values: seq<Value>, rest: string, m: Machine)
    requires values != [] && !m.inQuotes && m.cell == "" && m.row == []
    ensures var next := m.line + Breaks(Texts(values)) + 1;
      Run(CsvLine(values) + ("\n" + rest), m)
        == Run(rest, m.(rows := m.rows + [Row(m.rowLine, Texts(values))], line := next, rowLine := next))
  {
    var texts := Texts(values);
    assert |texts| == |values|;
    hide Run, CsvLine, Texts, Breaks, AfterCells;
    RunLine(values, "\n" + rest, m);
    AfterCellsRow(texts, m);
    assert [] + texts[..|values| - 1] + [texts[|values| - 1]] == texts;
  }

  /** Rows of at least one cell are read back exactly, formula-like strings with one apostrophe in front. */
  lemma {:induction false} RoundTrip(rows: seq<seq<Value>>)
    requires rows != [] && NoEmptyRow(rows)
    ensures Finish(Run(CsvText(rows), START)) == Ok(ExpectedRows(rows, 1))
  {
    hide Run;
    RunRows(rows, START);
    assert [] + ExpectedRows(rows, 1) == ExpectedRows(rows, 1);
  }

  function CellsOf(rows: seq<Row>): seq<seq<string>> {
    seq(|rows|, i requires 0 <= i < |rows| => rows[i].cells)
  }

  function AllTexts(rows: seq<seq<Value>>): seq<seq<string>> {
    seq(|rows|, i requires 0 <= i < |rows| => Texts(rows[i]))
  }

  lemma {:induction false} ExpectedCells(rows: seq<seq<Value>>, line: nat)
    ensures CellsOf(ExpectedRows(rows, line)) == AllTexts(rows)
  {
    if rows != [] {
      ExpectedCells(rows[1..], line + Breaks(Texts(rows[0])) + 1);
      assert AllTexts(rows) == [Texts(rows[0])] + AllTexts(rows[1..]);
      assert CellsOf(ExpectedRows(rows, line))
          == [Texts(rows[0])] + CellsOf(ExpectedRows(rows[1..], line + Breaks(Texts(rows[0])) + 1));
    }
  }

  /** What a row without cells prints as: one empty cell. */
  function Visible(row: seq<Value>): seq<Value> {
    if row == [] then [Absent] else row
  }

  function VisibleRows(rows: seq<seq<Value>>): seq<seq<Value>> {
    if rows == [] then [[Absent]]
    else seq(|rows|, i requires 0 <= i < |rows| => Visible(rows[i]))
  }

  lemma {:induction false} PrintsAsVisible(rows: seq<seq<Value>>)
    ensures CsvText(rows) == CsvText(VisibleRows(rows))
    decreases |rows|
  {
    if rows != [] {
      var visible := VisibleRows(rows);
      assert CsvLine(rows[0]) == CsvLine(visible[0]);
      if |rows| > 1 {
        PrintsAsVisible(rows[1..]);
        assert visible[1..] == VisibleRows(rows[1..]);
      }
    }
  }

  /**
  The cells come back as printed exactly when there is a row and no row is empty: an empty row,
  or no row at all, prints as a line with one empty cell.
  */
  lemma {:induction false} RoundTripIff(rows: seq<seq<Value>>)
    ensures Finish(Run(CsvText(rows), START)) == Ok(ExpectedRows(VisibleRows(rows), 1))
    ensures CellsOf(ExpectedRows(VisibleRows(rows), 1)) == AllTexts(rows)
       <==> rows != [] && NoEmptyRow(rows)
  {
    var visible := VisibleRows(rows);
    PrintsAsVisible(rows);
    assert NoEmptyRow(visible);
    RoundTrip(visible);
    ExpectedCells(visible, 1);
    if rows != [] && NoEmptyRow(rows) {
      assert visible == rows;
    } else if rows == [] {
      assert |AllTexts(visible)| == 1;
    } else {
      var i :| 0 <= i < |rows| && rows[i] == [];
      assert |AllTexts(visible)[i]| == 1 && |AllTexts(rows)[i]| == 0;
    }
  }

  /** A string cell read back never looks like a formula, and was changed only if it did. */
  lemma {:induction false} NeutralizedIsSafe(text: string)
    ensures !LooksLikeFormula(Neutralized(text))
    ensures Neutralized(text) == text || (LooksLikeFormula(text) && Neutralized(text) == "'" + text)
  {
    if LooksLikeFormula(text) {
      assert Neutralized(text)[0] == '\'';
    }
  }

  // ----- Line numbers ---------------------------------------------------------------

  lemma {:induction false} LineBreaksConcat(a: string, b: string)
    requires !(a != "" && a[|a| - 1] == '\r' && StartsWith('\n', b))
    ensures LineBreaks(a + b) == LineBreaks(a) + LineBreaks(b)
    decreases |a|
  {
    if a == "" {
      assert a + b == b;
    } else if a[0] == '\r' && StartsWith('\n', a[1..]) {
      assert (a + b)[2..] == a[2..] + b;
      LineBreaksConcat(a[2..], b);
    } else {
      assert (a + b)[1..] == a[1..] + b;
      assert a[0] == '\r' && a[1..] == "" ==> !StartsWith('\n', b);
      LineBreaksConcat(a[1..], b);
    }
  }

  lemma {:induction false} QuotesSnoc(text: string, c: char)
    ensures QuoteCount(text + [c]) == QuoteCount(text) + if c == '"' then 1 else 0
  {
    if text != "" {
      assert (text + [c])[1..] == text[1..] + [c];
      QuotesSnoc(text[1..], c);
    }
  }

  /** A row starts here: at the front, or after a line break that an even number of quotes precedes; a CRLF is one break. */
  predicate IsRowStart(text: string, p: nat) {
    p == 0
    || (p <= |text| && QuoteCount(text[..p]) % 2 == 0
        && (text[p - 1] == '\n' || (text[p - 1] == '\r' && !StartsWith('\n', text[p..]))))
  }

  /** The positions up to `p` at which rows start. */
  function RowStarts(text: string, p: nat): seq<nat> {
    if p == 0 then [0]
    else RowStarts(text, p - 1) + if IsRowStart(text, p) then [p] else []
  }

  function LineAt(text: string, p: nat): nat
    requires p <= |text|
  {
    1 + LineBreaks(text[..p])
  }

  /** The machine after the first `p` characters has the lines of the rows started by then. */
  ghost predicate InStep(text: string, p: nat, m: Machine) {
    && p <= |text|
    && !(p > 0 && text[p - 1] == '\r' && StartsWith('\n', text[p..]))
    && (m.inQuotes <==> QuoteCount(text[..p]) % 2 == 1)
    && m.line == LineAt(text, p)
    && LinesAre(text, RowStarts(text, p), m.rows, m.rowLine)
  }

  ghost predicate LinesAre(text: string, starts: seq<nat>, rows: seq<Row>, rowLine: nat) {
    && |starts| == |rows| + 1
    && (forall k | 0 <= k < |starts| :: starts[k] <= |text|)
    && (forall k | 0 <= k < |rows| :: rows[k].line == LineAt(text, starts[k]))
    && rowLine == LineAt(text, starts[|rows|])
  }

  lemma {:induction false} OneCharacter(text: string, p: nat)
    requires p < |text| && !(p > 0 && text[p - 1] == '\r' && text[p] == '\n')
    ensures QuoteCount(text[..p + 1]) == QuoteCount(text[..p]) + if text[p] == '"' then 1 else 0
    ensures LineAt(text, p + 1) == LineAt(text, p) + if text[p] == '\n' || text[p] == '\r' then 1 else 0
  {
    assert text[..p + 1] == text[..p] + [text[p]];
    QuotesSnoc(text[..p], text[p]);
    LineBreaksConcat(text[..p], [text[p]]);
    assert [text[p]][1..] == "";
  }

  lemma {:induction false} CrLfCharacters(text: string, p: nat)
    requires p + 1 < |text| && text[p] == '\r' && text[p + 1] == '\n'
    ensures QuoteCount(text[..p + 2]) == QuoteCount(text[..p])
    ensures LineAt(text, p + 2) == LineAt(text, p) + 1
  {
    assert text[..p + 2] == text[..p] + ['\r'] + ['\n'] == text[..p] + "\r\n";
    QuotesSnoc(text[..p], '\r');
    QuotesSnoc(text[..p] + ['\r'], '\n');
    LineBreaksConcat(text[..p], "\r\n");
    assert "\r\n"[1..] == "\n" && "\r\n"[2..] == "";
  }

  lemma {:induction false} StepOverCrLf(text: string, p: nat, m: Machine)
    requires InStep(text, p, m) && p + 1 < |text| && text[p] == '\r' && text[p + 1] == '\n'
    ensures InStep(text, p + 2, if m.inQuotes then m.(line := m.line + 1, cell := m.cell + "\r\n") else EndRow(m))
  {
    hide QuoteCount, LineBreaks;
    CrLfCharacters(text, p);
    assert text[p + 1..][0] == '\n' && !IsRowStart(text, p + 1);
    assert RowStarts(text, p + 2) == RowStarts(text, p) + if m.inQuotes then [] else [p + 2];
  }

  lemma {:induction false} StepOverQuotes(text: string, p: nat, m: Machine)
    requires InStep(text, p, m) && p + 1 < |text| && text[p] == '"' && text[p + 1] == '"'
    ensures InStep(text, p + 2, m.(cell := m.cell + "\""))
  {
    hide QuoteCount, LineBreaks;
    OneCharacter(text, p);
    OneCharacter(text, p + 1);
    assert RowStarts(text, p + 2) == RowStarts(text, p);
  }

  /** Any other character, one at a time. */
  lemma {:induction false} StepOverOne(text: string, p: nat, m: Machine, next: Machine)
    requires InStep(text, p, m) && p < |text| && !(text[p] == '\r' && StartsWith('\n', text[p + 1..]))
    requires next.inQuotes == (if text[p] == '"' then !m.inQuotes else m.inQuotes)
    requires next.line == (if text[p] == '\n' || text[p] == '\r' then m.line + 1 else m.line)
    requires var ends := !m.inQuotes && (text[p] == '\n' || text[p] == '\r');
      if ends then next.rowLine == next.line && |next.rows| == |m.rows| + 1 && next.rows[..|m.rows|] == m.rows
                   && next.rows[|m.rows|].line == m.rowLine
      else next.rows == m.rows && next.rowLine == m.rowLine
    ensures InStep(text, p + 1, next)
  {
    hide QuoteCount, LineBreaks;
    assert text[p..][0] == text[p];
    OneCharacter(text, p);
    var ends := !m.inQuotes && (text[p] == '\n' || text[p] == '\r');
    assert IsRowStart(text, p + 1) <==> ends;
    var starts := RowStarts(text, p);
    assert RowStarts(text, p + 1) == starts + if ends then [p + 1] else [];
    assert ends ==> forall k | 0 <= k < |m.rows| :: next.rows[k] == m.rows[k];
  }

  /** The machine after any other character. */
  function Next(c: char, m: Machine): Machine {
    if c == '"' then m.(inQuotes := !m.inQuotes)
    else if c == ',' && !m.inQuotes then EndCell(m)
    else if (c == '\n' || c == '\r') && !m.inQuotes then EndRow(m)
    else m.(line := if c == '\n' || c == '\r' then m.line + 1 else m.line, cell := m.cell + [c])
  }

  lemma {:induction false} RunFrom(text: string, p: nat, m: Machine)
    requires p < |text|
    ensures var c, rest := text[p], text[p + 1..];
      Run(text[p..], m) ==
        if c == '"' && m.inQuotes && StartsWith('"', rest) then Run(text[p + 2..], m.(cell := m.cell + "\""))
        else if c == '\r' && StartsWith('\n', rest) then
          Run(text[p + 2..], if m.inQuotes then m.(line := m.line + 1, cell := m.cell + "\r\n") else EndRow(m))
        else Run(rest, Next(c, m))
  {
    assert text[p..][0] == text[p] && text[p..][1..] == text[p + 1..];
    assert p + 1 < |text| ==> text[p + 1..][1..] == text[p + 2..];
  }

  lemma {:induction false} StaysInStep(text: string, p: nat, m: Machine)
    requires InStep(text, p, m)
    ensures InStep(text, |text|, Run(text[p..], m))
    decreases |text| - p
  {
    assert p <= |text|;
    hide InStep, Run;
    if p == |text| {
      RunNothing(m);
    } else {
      var c, rest := text[p], text[p + 1..];
      RunFrom(text, p, m);
      if c == '"' && m.inQuotes && StartsWith('"', rest) {
        StepOverQuotes(text, p, m);
        StaysInStep(text, p + 2, m.(cell := m.cell + "\""));
      } else if c == '\r' && StartsWith('\n', rest) {
        StepOverCrLf(text, p, m);
        StaysInStep(text, p + 2, if m.inQuotes then m.(line := m.line + 1, cell := m.cell + "\r\n") else EndRow(m));
      } else {
        StepOverOne(text, p, m, Next(c, m));
        StaysInStep(text, p + 1, Next(c, m));
      }
    }
  }

  /** Every row the parser reads, of any text, is numbered 1 plus the line breaks before the place it starts at. */
  lemma {:induction false} RowLines(text: string)
    requires Finish(Run(text, START)).Ok?
    ensures var rows, starts := Finish(Run(text, START)).value, RowStarts(text, |text|);
      && |rows| == |starts|
      && forall k | 0 <= k < |rows| :: starts[k] <= |text| && rows[k].line == LineAt(text, starts[k])
  {
    assert text[0..] == text;
    StaysInStep(text, 0, START);
  }
}
