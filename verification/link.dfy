/**
 * The database link as the library sees it: whether it is open, what the
 * server answers to each statement and what real_escape_string returns.
 */
module Link {
  import opened Common

  /** One column of a fetched row; a SQL NULL has no value. */
  datatype Cell = Cell(key: string, value: Option<string>)

  /** A row as fetch_assoc returns it, columns in select order. */
  type Row = seq<Cell>

  /**
   * The server's answer to one statement: whether it succeeded, the
   * affected-rows and insert-id counters, the link's error text afterwards
   * and the rows of the result set.
   */
  datatype Answer = Answer(ok: bool, affected: int, insertId: int, error: string, rows: seq<Row>)

  /**
   * The link. The server is a function of every statement text sent so far,
   * the current one last, so its answers may depend on what came before.
   */
  datatype Server = Server(connected: bool, execute: seq<string> -> Answer, escape: string -> string)

  /** $row[key] interpolated as text: a missing key or a NULL reads as "". */
  function Field(row: Row, key: string): string {
    if |row| == 0 then ""
    else if row[0].key == key then row[0].value.GetOr("")
    else Field(row[1..], key)
  }

  /** The row fetch_assoc returns first, or no columns when the statement failed or returned no rows. */
  function FirstRow(result: Option<Answer>): Row {
    if result.Some? && |result.value.rows| > 0 then result.value.rows[0] else []
  }

  /**
   * What getOne returns, read as a condition: the first column of the first
   * row, when that value is neither NULL nor empty() ("" or "0").
   */
  predicate FirstValueHolds(result: Option<Answer>) {
    var row := FirstRow(result);
    |row| > 0 && row[0].value.Some? && !EmptyString(row[0].value.value)
  }
}
