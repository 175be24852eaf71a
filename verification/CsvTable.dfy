/**
Importing a CSV text as a table: trailing empty rows are dropped, the first row gives the headers,
blank rows are skipped, and every other row must have a cell for each header.
*/
module CsvTable {
  import opened Results
  import opened Csv

  datatype Table = Table(headers: seq<string>, rows: seq<Row>)

  const BYTE_ORDER_MARK: char := 0xFEFF as char

  function SkipTrailingSpaces(text: string): string {
    if text != "" && IsSpace(text[|text| - 1]) then SkipTrailingSpaces(text[..|text| - 1]) else text
  }

  function Trim(text: string): string {
    SkipTrailingSpaces(SkipSpaces(text))
  }

  predicate IsEmptyRow(row: Row) {
    forall cell | cell in row.cells :: cell == ""
  }

  predicate IsBlankRow(row: Row) {
    forall cell | cell in row.cells :: Trim(cell) == ""
  }

  function NormalizedHeader(header: string, index: nat): string {
    Trim(if index == 0 && header != "" && header[0] == BYTE_ORDER_MARK then header[1..] else header)
  }

  function Headers(cells: seq<string>): seq<string> {
    seq(|cells|, i requires 0 <= i < |cells| => NormalizedHeader(cells[i], i))
  }

  predicate ValidHeaders(headers: seq<string>) {
    && (forall i | 0 <= i < |headers| :: headers[i] != "")
    && (forall i, j | 0 <= i < j < |headers| :: headers[i] != headers[j])
  }

  function WithoutTrailing(rows: seq<Row>): (r: seq<Row>)
    ensures r <= rows && (r != [] ==> !IsEmptyRow(r[|r| - 1]))
    ensures forall i | |r| <= i < |rows| :: IsEmptyRow(rows[i])
    ensures rows != [] && !IsEmptyRow(rows[0]) ==> r != []
  {
    if rows != [] && IsEmptyRow(rows[|rows| - 1]) then WithoutTrailing(rows[..|rows| - 1]) else rows
  }

  function NonBlank(rows: seq<Row>): (r: seq<Row>)
    ensures forall row :: row in r <==> row in rows && !IsBlankRow(row)
  {
    if rows == [] then []
    else
      var earlier, last := NonBlank(rows[..|rows| - 1]), rows[|rows| - 1];
      assert rows == rows[..|rows| - 1] + [last];
      if IsBlankRow(last) then earlier else earlier + [last]
  }

  predicate HasWidth(rows: seq<Row>, width: nat) {
    forall row | row in rows :: |row.cells| == width
  }

  /** The table the parsed rows make, or the reason they make none. */
  function TableOf(rows: seq<Row>): Result<Table> {
    var kept := WithoutTrailing(rows);
    if kept == [] then Err(BadRequest)
    else
      var headers, data := Headers(kept[0].cells), NonBlank(kept[1..]);
      if ValidHeaders(headers) && HasWidth(data, |headers|) then Ok(Table(headers, data)) else Err(BadRequest)
  }

  method TrimTrailingEmptyRows(rows: seq<Row>) returns (kept: seq<Row>)
    ensures kept == WithoutTrailing(rows)
  {
    var end := |rows|;
    assert rows[..end] == rows;
    while end > 0 && IsEmptyRow(rows[end - 1])
      invariant 0 <= end <= |rows|
      invariant WithoutTrailing(rows[..end]) == WithoutTrailing(rows)
    {
      assert rows[..end][..end - 1] == rows[..end - 1];
      end := end - 1;
    }
    kept := rows[..end];
  }

  method ValidateHeaders(headers: seq<string>) returns (ok: bool)
    ensures ok == ValidHeaders(headers)
  {
    var seen: set<string> := {};
    var i := 0;
    while i < |headers|
      invariant 0 <= i <= |headers|
      invariant forall h :: h in seen <==> h in headers[..i]
      invariant ValidHeaders(headers[..i])
    {
      if headers[i] == "" {
        return false;
      }
      if headers[i] in seen {
        var j :| 0 <= j < i && headers[..i][j] == headers[i];
        return false;
      }
      assert headers[..i + 1] == headers[..i] + [headers[i]];
      seen := seen + {headers[i]};
      i := i + 1;
    }
    assert headers[..i] == headers;
    ok := true;
  }

  method ParseCsv(text: string) returns (r: Result<Table>)
    ensures r == match Finish(Run(text, START)) case Err(e) => Err(e) case Ok(rows) => TableOf(rows)
  {
    var parsed := ParseCsvCells(text);
    if parsed.Err? {
      return Err(parsed.error);
    }
    var kept := TrimTrailingEmptyRows(parsed.value);
    if kept == [] {
      return Err(BadRequest);
    }
    var headers := Headers(kept[0].cells);
    var valid := ValidateHeaders(headers);
    if !valid {
      return Err(BadRequest);
    }
    var data := DropBlankRows(kept[1..]);
    var fits := RowsHaveWidth(data, |headers|);
    r := if fits then Ok(Table(headers, data)) else Err(BadRequest);
  }

  method DropBlankRows(rows: seq<Row>) returns (data: seq<Row>)
    ensures data == NonBlank(rows)
  {
    data := [];
    var i := 0;
    while i < |rows|
      invariant 0 <= i <= |rows|
      invariant data == NonBlank(rows[..i])
    {
      assert rows[..i + 1][..i] == rows[..i];
      if !IsBlankRow(rows[i]) {
        data := data + [rows[i]];
      }
      i := i + 1;
    }
    assert rows[..i] == rows;
  }

  method RowsHaveWidth(rows: seq<Row>, width: nat) returns (ok: bool)
    ensures ok == HasWidth(rows, width)
  {
    var i := 0;
    while i < |rows|
      invariant 0 <= i <= |rows|
      invariant forall j | 0 <= j < i :: |rows[j].cells| == width
    {
      if |rows[i].cells| != width {
        assert rows[i] in rows;
        return false;
      }
      i := i + 1;
    }
    ok := true;
  }

  // ----- Importing what was exported -------------------------------------------------------

  /** A header that is printed and read back as it is. */
  predicate IsCleanHeader(header: string) {
    header != "" && Trim(header) == header && !LooksLikeFormula(header) && header[0] != BYTE_ORDER_MARK
  }

  function HeaderRow(headers: seq<string>): seq<Value> {
    seq(|headers|, i requires 0 <= i < |headers| => Text(headers[i]))
  }

  lemma {:induction false} NonBlankSplits(a: seq<Row>, b: seq<Row>)
    ensures NonBlank(a + b) == NonBlank(a) + NonBlank(b)
  {
    if b == [] {
      assert a + b == a;
    } else {
      assert (a + b)[..|a + b| - 1] == a + b[..|b| - 1];
      NonBlankSplits(a, b[..|b| - 1]);
    }
  }

  lemma {:induction false} EmptyRowsAreBlank(rows: seq<Row>)
    requires forall row | row in rows :: IsEmptyRow(row)
    ensures NonBlank(rows) == []
  {
    if rows != [] {
      EmptyRowsAreBlank(rows[..|rows| - 1]);
    }
  }

  /** Dropping trailing empty rows before blank ones makes no difference below a header row with a header in it. */
  lemma {:induction false} TrailingRowsAreBlank(rows: seq<Row>)
    requires rows != [] && !IsEmptyRow(rows[0])
    ensures var kept := WithoutTrailing(rows); kept != [] && kept[0] == rows[0] && NonBlank(kept[1..]) == NonBlank(rows[1..])
  {
    var kept := WithoutTrailing(rows);
    var dropped := rows[|kept|..];
    assert rows[1..] == kept[1..] + dropped;
    NonBlankSplits(kept[1..], dropped);
    EmptyRowsAreBlank(dropped);
  }

  lemma {:induction false} CleanHeadersRead(headers: seq<string>)
    requires forall h | h in headers :: IsCleanHeader(h)
    ensures Texts(HeaderRow(headers)) == headers && Headers(headers) == headers
  {
    forall i | 0 <= i < |headers|
      ensures Texts(HeaderRow(headers))[i] == headers[i] && Headers(headers)[i] == headers[i]
    {
      assert headers[i] in headers;
    }
  }

  lemma {:induction false} ExpectedWidths(rows: seq<seq<Value>>, line: nat, width: nat)
    requires forall i | 0 <= i < |rows| :: |rows[i]| == width
    ensures HasWidth(ExpectedRows(rows, line), width)
  {
    if rows != [] {
      ExpectedWidths(rows[1..], line + Breaks(Texts(rows[0])) + 1, width);
    }
  }

  lemma {:induction false} HeaderAndData(headers: seq<string>, data: seq<Row>, line: nat)
    requires headers != [] && ValidHeaders(headers) && Headers(headers) == headers && HasWidth(data, |headers|)
    ensures TableOf([Row(line, headers)] + data) == Ok(Table(headers, NonBlank(data)))
  {
    var rows := [Row(line, headers)] + data;
    assert !IsEmptyRow(rows[0]) by {
      assert headers[0] in headers && headers[0] != "";
    }
    TrailingRowsAreBlank(rows);
    assert rows[1..] == data;
    hide NonBlank, WithoutTrailing, ValidHeaders, Headers, IsBlankRow;
    assert HasWidth(NonBlank(data), |headers|);
  }

  /** Importing an exported table gives its headers and its rows that are not blank, each with its line number. */
  lemma {:induction false} TableRoundTrip(headers: seq<string>, rows: seq<seq<Value>>)
    requires headers != [] && ValidHeaders(headers) && (forall h | h in headers :: IsCleanHeader(h))
    requires forall i | 0 <= i < |rows| :: |rows[i]| == |headers|
    ensures var parsed := Finish(Run(CsvText([HeaderRow(headers)] + rows), START));
      parsed.Ok? && TableOf(parsed.value) == Ok(Table(headers, NonBlank(ExpectedRows(rows, Breaks(headers) + 2))))
  {
    hide Run, CsvText, Breaks, IsCleanHeader, TableOf, ValidHeaders, Headers, NonBlank, HasWidth, Texts;
    var all := [HeaderRow(headers)] + rows;
    assert NoEmptyRow(all);
    RoundTrip(all);
    CleanHeadersRead(headers);
    assert all[1..] == rows;
    assert ExpectedRows(all, 1) == [Row(1, headers)] + ExpectedRows(rows, Breaks(headers) + 2);
    ExpectedWidths(rows, Breaks(headers) + 2, |headers|);
    HeaderAndData(headers, ExpectedRows(rows, Breaks(headers) + 2), 1);
  }
}
