/**
 * The statements the engine sends while creating, altering and filling
 * tables, and the text each one is sent as (before macro processing).
 * Every table is named through the codb_table(...) macro.
 */
module Statements {
  import opened Common

  datatype Statement =
    | ShowTables(name: string)
    | Describe(table: string)
    | ShowColumns(table: string, column: string)
      // columns are full column definitions; charset and collate are whole clauses or ""
    | CreateTable(table: string, columns: seq<string>, engine: string, charset: string, collate: string)
      // kind is "INDEX" or "<tag> INDEX"; columns are "`name` length" items
    | CreateIndex(kind: string, name: string, table: string, columns: seq<string>)
    | ChangeColumn(table: string, target: string, value: string, sqlType: string, extra: string, default: string, nullClause: string)
    | DropColumn(table: string, column: string)
    | ModifyColumn(table: string, column: string, options: string)
    | DropIndex(table: string, index: string)
    | AddColumn(table: string, column: string, options: string)
    | AddLangColumn(table: string, column: string, options: string, position: string)
    | InsertSet(table: string, assignments: seq<string>)
    | InsertValues(table: string, names: string, values: seq<string>)

  /** A statement with the engine line it is sent from (the frame QUERY_FAILED names). */
  datatype Planned = Planned(stmt: Statement, line: int)

  function TableRef(table: string): string {
    "codb_table(" + table + ")"
  }

  /** text holds the codb_table(...) reference of table t. */
  predicate NamesTable(text: string, t: string) {
    exists i :: 0 <= i <= |text| && TableRef(t) <= text[i..]
  }

  lemma NamedIn(p: string, t: string, q: string)
    ensures NamesTable(p + TableRef(t) + q, t)
  {
    var text := p + TableRef(t) + q;
    assert TableRef(t) <= text[|p|..];
  }

  /**
   * The text a statement is sent as. Every statement but SHOW TABLES names
   * its table through codb_table(...), so that processMacros qualifies it
   * with the database and the prefix; SHOW TABLES matches the bare name.
   */
  function Render(st: Statement): (r: string)
    ensures !st.ShowTables? ==> NamesTable(r, st.table)
    ensures st.ShowTables? ==> |r| == |st.name| + 19 && r[..18] == "SHOW TABLES LIKE '" && r[18..] == st.name + "'"
  {
    match st
    case ShowTables(name) => "SHOW TABLES LIKE '" + name + "'"
    case Describe(t) =>
      NamedIn("DESCRIBE ", t, "");
      "DESCRIBE " + TableRef(t) + ""
    case ShowColumns(t, c) =>
      NamedIn("SHOW COLUMNS FROM ", t, " LIKE '" + c + "'");
      "SHOW COLUMNS FROM " + TableRef(t) + (" LIKE '" + c + "'")
    case CreateTable(t, cols, engine, charset, collate) =>
      var tail := " ( \n\t" + Join(",\n\t", cols) + "\n ) ENGINE = " + engine + "  " + charset + "  " + collate + ";";
      NamedIn("CREATE TABLE ", t, tail);
      "CREATE TABLE " + TableRef(t) + tail
    case CreateIndex(kind, name, t, cols) =>
      var head := "CREATE " + kind + " `" + name + "` ON ";
      NamedIn(head, t, " ( " + Join(", ", cols) + " )");
      head + TableRef(t) + (" ( " + Join(", ", cols) + " )")
    case ChangeColumn(t, target, value, sqlType, extra, default, nullClause) =>
      var tail := " CHANGE COLUMN `" + target + "` `" + value + "` " + sqlType + " " + extra + " " + default + " " + nullClause;
      NamedIn("ALTER TABLE ", t, tail);
      "ALTER TABLE " + TableRef(t) + tail
    case DropColumn(t, c) =>
      NamedIn("ALTER TABLE ", t, " DROP COLUMN `" + c + "`");
      "ALTER TABLE " + TableRef(t) + (" DROP COLUMN `" + c + "`")
    case ModifyColumn(t, c, options) =>
      NamedIn("ALTER TABLE ", t, " MODIFY COLUMN `" + c + "` " + options);
      "ALTER TABLE " + TableRef(t) + (" MODIFY COLUMN `" + c + "` " + options)
    case DropIndex(t, index) =>
      NamedIn("DROP INDEX " + index + " ON ", t, "");
      "DROP INDEX " + index + " ON " + TableRef(t) + ""
    case AddColumn(t, c, options) =>
      NamedIn("ALTER TABLE ", t, " ADD `" + c + "` " + options);
      "ALTER TABLE " + TableRef(t) + (" ADD `" + c + "` " + options)
    case AddLangColumn(t, c, options, position) =>
      NamedIn("ALTER TABLE ", t, " ADD `" + c + "` " + options + " " + position);
      "ALTER TABLE " + TableRef(t) + (" ADD `" + c + "` " + options + " " + position)
    case InsertSet(t, assignments) =>
      NamedIn("INSERT INTO ", t, " SET " + Join(", ", assignments));
      "INSERT INTO " + TableRef(t) + (" SET " + Join(", ", assignments))
    case InsertValues(t, names, values) =>
      var tail := " ( " + names + " ) VALUES( " + Join(", ", values) + " )";
      NamedIn("INSERT INTO ", t, tail);
      "INSERT INTO " + TableRef(t) + tail
  }
}
