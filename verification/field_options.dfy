/**
 * buildFieldOptions: the column definition text for a field node, made of a
 * fixed sequence of clauses, each empty when its option is not given.
 */
module FieldOptions {
  import opened Common
  import opened Schema

  /** "( L )" for a given length, "" otherwise; index columns use the same form. */
  function LengthClause(length: Option<string>): (r: string)
    ensures |r| > 0 <==> Given(length)
    ensures Given(length) ==>
      && |r| == |length.value| + 4
      && r[..2] == "( " && r[2..|r| - 2] == length.value && r[|r| - 2..] == " )"
  {
    if Given(length) then "( " + length.value + " )" else ""
  }

  /** A clause that is present only when its option is. */
  function Clause(present: bool, text: string): (r: string)
    requires |text| > 0
    ensures |r| > 0 <==> present
  {
    if present then text else ""
  }

  /** "DEFAULT 'd'" with d escaped, for a given default. */
  function FieldDefault(escape: string -> string, d: Option<string>): (r: string)
    ensures |r| > 0 <==> Given(d)
    ensures Given(d) ==> |r| == |escape(d.value)| + 10 && r[..9] == "DEFAULT '" && r[9..|r| - 1] == escape(d.value) && r[|r| - 1] == '\''
  {
    if Given(d) then "DEFAULT '" + escape(d.value) + "'" else ""
  }

  /** "CHARACTER SET c", for a given character set. */
  function FieldCharset(c: Option<string>): (r: string)
    ensures |r| > 0 <==> Given(c)
    ensures Given(c) ==> |r| == |c.value| + 14 && r[..14] == "CHARACTER SET " && r[14..] == c.value
  {
    if Given(c) then "CHARACTER SET " + c.value else ""
  }

  /** "COLLATE c", for a given collation. */
  function FieldCollate(c: Option<string>): (r: string)
    ensures |r| > 0 <==> Given(c)
    ensures Given(c) ==> |r| == |c.value| + 8 && r[..8] == "COLLATE " && r[8..] == c.value
  {
    if Given(c) then "COLLATE " + c.value else ""
  }

  /**
   * The eleven keys the option array always has, in order: type, length,
   * default, charset, collate, primary key, signedness (SIGNED wins over
   * UNSIGNED), zerofill, binary, the null clause, auto increment.
   */
  function FixedSlots(escape: string -> string, f: FieldSpec): (r: seq<string>)
    ensures |r| == 11
    ensures r[0] == f.sqlType
    ensures r[1] == if Given(f.length) then "( " + f.length.value + " )" else ""
    ensures r[2] == if Given(f.defaultValue) then "DEFAULT '" + escape(f.defaultValue.value) + "'" else ""
    ensures r[3] == if Given(f.charset) then "CHARACTER SET " + f.charset.value else ""
    ensures r[4] == if Given(f.collate) then "COLLATE " + f.collate.value else ""
    ensures r[5] == if f.primaryKey then "PRIMARY KEY" else ""
    ensures r[6] == if f.signed then "SIGNED" else if f.unsigned then "UNSIGNED" else ""
    ensures r[7] == if f.zerofill then "ZEROFILL" else ""
    ensures r[8] == if f.binary then "BINARY" else ""
    ensures r[9] == if f.nullable then "NULL" else "NOT NULL"
    ensures r[10] == if f.autoIncrement then "AUTO_INCREMENT" else ""
  {
    [ f.sqlType,
      LengthClause(f.length),
      FieldDefault(escape, f.defaultValue),
      FieldCharset(f.charset),
      FieldCollate(f.collate),
      Clause(f.primaryKey, "PRIMARY KEY"),
      if f.signed then "SIGNED" else if f.unsigned then "UNSIGNED" else "",
      Clause(f.zerofill, "ZEROFILL"),
      Clause(f.binary, "BINARY"),
      if f.nullable then "NULL" else "NOT NULL",
      Clause(f.autoIncrement, "AUTO_INCREMENT")
    ]
  }

  /** The option array: the fixed keys, then a comment key only when a comment is given. */
  function OptionSlots(escape: string -> string, f: FieldSpec): (r: seq<string>)
    ensures |r| == if Given(f.comment) then 12 else 11
    ensures r[..11] == FixedSlots(escape, f)
    ensures |r| == 12 ==> r[11] == "COMMENT '" + escape(f.comment.value) + "'"
  {
    var fixed := FixedSlots(escape, f);
    if Given(f.comment) then fixed + ["COMMENT '" + escape(f.comment.value) + "'"] else fixed
  }

  /** buildFieldOptions: the slots joined with single spaces, empty slots included. */
  function BuildFieldOptions(escape: string -> string, f: FieldSpec): string {
    Join(" ", OptionSlots(escape, f))
  }

  lemma {:induction false} JoinConcat(glue: string, a: seq<string>, b: seq<string>)
    requires |a| > 0 && |b| > 0
    ensures Join(glue, a + b) == Join(glue, a) + glue + Join(glue, b)
  {
    if |a| == 1 {
      assert (a + b)[0] == a[0] && (a + b)[1..] == b;
    } else {
      assert (a + b)[0] == a[0] && (a + b)[1..] == a[1..] + b;
      JoinConcat(glue, a[1..], b);
    }
  }

  /** A joined list is the join of the slots before k, slot k and the join of the slots after k. */
  lemma JoinAround(glue: string, slots: seq<string>, k: int)
    requires 0 < k < |slots| - 1
    ensures Join(glue, slots) == Join(glue, slots[..k]) + glue + slots[k] + glue + Join(glue, slots[k + 1..])
  {
    assert slots == slots[..k] + ([slots[k]] + slots[k + 1..]);
    JoinConcat(glue, slots[..k], [slots[k]] + slots[k + 1..]);
    JoinConcat(glue, [slots[k]], slots[k + 1..]);
  }

  /**
   * The null clause sits at its fixed place in every definition: after the
   * nine slots before it and before the auto-increment and comment slots.
   */
  lemma NullClausePlace(escape: string -> string, f: FieldSpec)
    ensures var slots := OptionSlots(escape, f);
      BuildFieldOptions(escape, f)
        == Join(" ", slots[..9]) + " " + (if f.nullable then "NULL" else "NOT NULL") + " " + Join(" ", slots[10..])
  {
    var slots := OptionSlots(escape, f);
    assert slots[9] == FixedSlots(escape, f)[9];
    JoinAround(" ", slots, 9);
  }
}
