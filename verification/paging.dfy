/**
 * limit(): the LIMIT clause for an offset and a row count, both converted
 * with intval() first.
 */
module Paging {
  import opened Common

  /** "LIMIT offset[, rows]": empty for a negative offset, the row count only when it is positive. */
  function Limit(offset: PhpValue, rowCount: PhpValue): (r: string)
    ensures r == "" <==> IntVal(offset) < 0
  {
    LimitOf(IntVal(offset), IntVal(rowCount))
  }

  /** The clause for offset and row count after intval(). */
  function LimitOf(off: PhpInt, rows: PhpInt): (r: string)
    ensures r == "" <==> off < 0
  {
    if off >= 0 then "LIMIT " + IntToString(off) + (if rows > 0 then ", " + IntToString(rows) else "") else ""
  }

  /**
   * The clause carries the converted numbers: intval() of the text after
   * "LIMIT " is the offset, intval() of the text after ", " is the row
   * count, and without a positive row count nothing but the offset's
   * digits follows "LIMIT ".
   */
  lemma LimitReadsBack(offset: PhpValue, rowCount: PhpValue)
    requires IntVal(offset) >= 0
    ensures var r := Limit(offset, rowCount);
      && |r| > 6 && r[..6] == "LIMIT " && StrToInt(r[6..]) == IntVal(offset)
      && (IntVal(rowCount) > 0 ==> exists k :: 8 <= k < |r| && r[k - 2..k] == ", " && StrToInt(r[k..]) == IntVal(rowCount))
      && (IntVal(rowCount) <= 0 ==> forall i :: 6 <= i < |r| ==> IsDigit(r[i]))
  {
    var off := IntVal(offset);
    var rows := IntVal(rowCount);
    if rows > 0 {
      LimitWithRows(off, rows);
    } else {
      LimitWithoutRows(off, rows);
    }
  }

  lemma LimitWithRows(off: PhpInt, rows: PhpInt)
    requires off >= 0 && rows > 0
    ensures var r := LimitOf(off, rows);
      && |r| > 6 && r[..6] == "LIMIT " && StrToInt(r[6..]) == off
      && exists k :: 8 <= k < |r| && r[k - 2..k] == ", " && StrToInt(r[k..]) == rows
  {
    var r := LimitOf(off, rows);
    var digits := IntToString(off);
    var count := IntToString(rows);
    var k := 8 + |digits|;
    Pieces(digits, count);
    StrToIntOfPrinted(off, ", " + count);
    StrToIntOfIntToString(rows);
    assert 8 <= k < |r| && r[k - 2..k] == ", " && StrToInt(r[k..]) == rows;
  }

  /** Where the pieces of "LIMIT d, e" sit. */
  lemma Pieces(d: string, e: string)
    requires |e| > 0
    ensures var r := "LIMIT " + d + (", " + e);
      && |r| > 8 + |d| && r[..6] == "LIMIT " && r[6..] == d + (", " + e)
      && r[6 + |d|..8 + |d|] == ", " && r[8 + |d|..] == e
  {
  }

  lemma LimitWithoutRows(off: PhpInt, rows: PhpInt)
    requires off >= 0 && rows <= 0
    ensures var r := LimitOf(off, rows);
      && |r| > 6 && r[..6] == "LIMIT " && StrToInt(r[6..]) == off
      && forall i :: 6 <= i < |r| ==> IsDigit(r[i])
  {
    var r := LimitOf(off, rows);
    var digits := IntToString(off);
    assert digits == NatToString(off);
    assert r == "LIMIT " + digits;
    assert r[6..] == digits;
    StrToIntOfIntToString(off);
  }
}
