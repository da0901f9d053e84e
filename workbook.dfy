/** The uploaded workbook as the spreadsheet reader hands it over, the header
    check of the portfolio upload, and the lenient reading of one data row
    (src/handlers.rs:38-57). */
module Workbook {
  import opened Models

  /** A cell of the first worksheet. Cells of any other kind (integer, boolean,
      date, error) answer neither a string nor a float, exactly as an empty
      cell does, so they are represented by `Empty`. */
  datatype Cell = Str(text: string) | Num(value: real) | Empty

  /** The outcome of opening the uploaded bytes and reading worksheet 0. */
  datatype Decoded =
    | DecodeError(reason: string)       // the bytes are not a workbook
    | NoSheet                           // the workbook has no worksheet 0
    | SheetUnreadable(reason: string)   // worksheet 0 exists but cannot be read
    | Sheet(rows: seq<seq<Cell>>)

  const U32Max: nat := 0xFFFF_FFFF

  const ExpectedHeader: seq<Option<string>> :=
    [Some("ID_CLIENTE"), Some("MONTO (USD)"), Some("AÑO"), Some("MES")]

  function GetString(c: Cell): Option<string> {
    if c.Str? then Some(c.text) else None
  }

  function GetFloat(c: Cell): Option<real> {
    if c.Num? then Some(c.value) else None
  }

  /** The cell at column `i` of `row`, if the row is that wide. */
  function CellAt(row: seq<Cell>, i: nat): Option<Cell> {
    if i < |row| then Some(row[i]) else None
  }

  /** The first row read as strings; an empty sheet has no first row and
      gives the empty header. */
  function HeaderNames(rows: seq<seq<Cell>>): (h: seq<Option<string>>)
    ensures |rows| > 0 ==> |h| == |rows[0]|
    ensures |rows| > 0 ==> forall i :: 0 <= i < |h| ==> h[i] == GetString(rows[0][i])
    ensures |rows| == 0 ==> h == []
  {
    if |rows| == 0 then []
    else seq(|rows[0]|, i requires 0 <= i < |rows[0]| => GetString(rows[0][i]))
  }

  predicate HeaderOk(rows: seq<seq<Cell>>) {
    HeaderNames(rows) == ExpectedHeader
  }

  /** The header check accepts exactly the sheets whose first row is the four
      expected string cells, in order, and nothing else. */
  lemma HeaderOkIff(rows: seq<seq<Cell>>)
    ensures HeaderOk(rows) <==>
      |rows| > 0 && rows[0] == [Str("ID_CLIENTE"), Str("MONTO (USD)"), Str("AÑO"), Str("MES")]
  {
    if HeaderOk(rows) {
      var h := HeaderNames(rows);
      assert |rows[0]| == 4;
      assert h[0] == GetString(rows[0][0]) && h[1] == GetString(rows[0][1]);
      assert h[2] == GetString(rows[0][2]) && h[3] == GetString(rows[0][3]);
    }
  }

  /** `f as u32` on a float: truncation toward zero, saturating at both ends. */
  function TruncateToU32(x: real): (m: nat)
    ensures m <= U32Max
    ensures 0.0 <= x < U32Max as real ==> m as real <= x < m as real + 1.0
    ensures x < 1.0 ==> m == 0
    ensures x >= U32Max as real ==> m == U32Max
  {
    if x <= 0.0 then 0
    else if x >= U32Max as real then U32Max
    else x.Floor
  }

  /** Column 0: the client id, or "" when it is missing or not a string. */
  function ClientIdOf(row: seq<Cell>): string {
    match CellAt(row, 0)
    case Some(c) => GetString(c).GetOr("")
    case None => ""
  }

  /** Column 1: the monthly revenue, or 0 when missing or not a number. */
  function AmountOf(row: seq<Cell>): real {
    match CellAt(row, 1)
    case Some(c) => GetFloat(c).GetOr(0.0)
    case None => 0.0
  }

  /** Column 3: the month, truncated to an unsigned 32-bit integer, or 0 when
      missing or not a number. Column 2 (the year) is never read. */
  function MonthOf(row: seq<Cell>): nat {
    match CellAt(row, 3)
    case Some(c) => (match GetFloat(c) case Some(x) => TruncateToU32(x) case None => 0)
    case None => 0
  }

  /** Every malformed cell falls back to a default instead of failing. */
  lemma CellFallbacks(row: seq<Cell>)
    ensures ClientIdOf(row) == (if |row| > 0 && row[0].Str? then row[0].text else "")
    ensures AmountOf(row) == (if |row| > 1 && row[1].Num? then row[1].value else 0.0)
    ensures MonthOf(row) == (if |row| > 3 && row[3].Num? then TruncateToU32(row[3].value) else 0)
    ensures MonthOf(row) <= U32Max
  {
  }
}
