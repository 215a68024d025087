/**
 * The statements createTable, fillTables and alterTable derive from a table
 * description, as pure functions of the description, the language list and
 * (for alterTable) the column snapshot. They are defined element by element
 * from the front of each list, the way the engine's loops build them.
 */
module Plans {
  import opened Common
  import opened Schema
  import opened FieldOptions
  import opened Statements
  import opened Link

  // ---------------------------------------------------------------------------
  // createTable: column definitions
  // ---------------------------------------------------------------------------

  function ColumnDef(name: string, options: string): string {
    "`" + name + "` " + options
  }

  /** The columns of a multi-lingual field: one per language, in language order, all with the same options. */
  function LangColumns(name: string, options: string, languages: seq<string>): (r: seq<string>)
    ensures |r| == |languages|
    ensures forall i :: 0 <= i < |r| ==> r[i] == ColumnDef(name + "_" + languages[i], options)
    decreases |languages|
  {
    if languages == [] then []
    else
      var init := languages[..|languages| - 1];
      var r := LangColumns(name, options, init) + [ColumnDef(name + "_" + languages[|languages| - 1], options)];
      assert forall i :: 0 <= i < |init| ==> init[i] == languages[i];
      r
  }

  /** The columns one field contributes. */
  function FieldColumns(escape: string -> string, f: FieldSpec, languages: seq<string>): (r: seq<string>)
    ensures |r| == if f.multiLingual then |languages| else 1
  {
    var options := BuildFieldOptions(escape, f);
    if f.multiLingual then LangColumns(f.name, options, languages) else [ColumnDef(f.name, options)]
  }

  /** The number of columns a field list yields when each multi-lingual field yields k. */
  function ColumnCount(fields: seq<FieldSpec>, k: nat): nat
    decreases |fields|
  {
    if fields == [] then 0
    else ColumnCount(fields[..|fields| - 1], k) + (if fields[|fields| - 1].multiLingual then k else 1)
  }

  /** The column definitions of CREATE TABLE, field after field in description order. */
  function ColumnDefs(escape: string -> string, fields: seq<FieldSpec>, languages: seq<string>): (r: seq<string>)
    ensures |r| == ColumnCount(fields, |languages|)
    decreases |fields|
  {
    if fields == [] then []
    else ColumnDefs(escape, fields[..|fields| - 1], languages) + FieldColumns(escape, fields[|fields| - 1], languages)
  }

  /** The names of the multi-lingual fields, in description order. */
  function MultiLingualNames(fields: seq<FieldSpec>): (r: seq<string>)
    ensures forall n :: n in r <==> exists i :: 0 <= i < |fields| && fields[i].multiLingual && fields[i].name == n
    decreases |fields|
  {
    if fields == [] then []
    else
      var init := fields[..|fields| - 1];
      var last := fields[|fields| - 1];
      var r := MultiLingualNames(init) + (if last.multiLingual then [last.name] else []);
      assert forall i :: 0 <= i < |init| ==> init[i] == fields[i];
      r
  }

  /** The field names in description order ($table_fields_natural_order). */
  function NaturalOrder(fields: seq<FieldSpec>): (r: seq<string>)
    ensures |r| == |fields|
    ensures forall i :: 0 <= i < |r| ==> r[i] == fields[i].name
    decreases |fields|
  {
    if fields == [] then []
    else
      var init := fields[..|fields| - 1];
      var r := NaturalOrder(init) + [fields[|fields| - 1].name];
      assert forall i :: 0 <= i < |init| ==> init[i] == fields[i];
      r
  }

  function CharsetClause(o: TableOptions): string {
    if Given(o.charset) then "DEFAULT CHARSET = " + o.charset.value else ""
  }

  function CollateClause(o: TableOptions): string {
    if Given(o.collate) then "DEFAULT COLLATE = " + o.collate.value else ""
  }

  /**
   * The CREATE TABLE of a table: its name, one column per plain field and
   * one per language for each multi-lingual field, its engine, and the
   * charset and collate clauses exactly when those options are given.
   */
  function CreateStatement(escape: string -> string, t: TableSpec, languages: seq<string>): (r: Statement)
    ensures r.CreateTable? && r.table == t.name && r.engine == t.options.engine
    ensures |r.columns| == ColumnCount(t.fields, |languages|)
    ensures |r.charset| > 0 <==> Given(t.options.charset)
    ensures |r.collate| > 0 <==> Given(t.options.collate)
  {
    CreateTable(t.name, ColumnDefs(escape, t.fields, languages), t.options.engine, CharsetClause(t.options), CollateClause(t.options))
  }

  // ---------------------------------------------------------------------------
  // createTable: indexes
  // ---------------------------------------------------------------------------

  /** The index type of a section: "INDEX" for <index>, otherwise the tag followed by " INDEX". */
  function IndexKind(tag: string): (r: string)
    ensures r == "INDEX" <==> tag == "index"
  {
    if tag == "index" then "INDEX" else tag + " INDEX"
  }

  /** An index column: the back-quoted column and its length clause, separated by a space. */
  function IndexColumn(column: string, length: Option<string>): string {
    "`" + column + "` " + LengthClause(length)
  }

  /** The per-language index columns of a multi-lingual field, in language order. */
  function LangIndexColumns(field: string, length: Option<string>, languages: seq<string>): (r: seq<string>)
    ensures |r| == |languages|
    ensures forall i :: 0 <= i < |r| ==> r[i] == IndexColumn(field + "_" + languages[i], length)
    decreases |languages|
  {
    if languages == [] then []
    else
      var init := languages[..|languages| - 1];
      var r := LangIndexColumns(field, length, init) + [IndexColumn(field + "_" + languages[|languages| - 1], length)];
      assert forall i :: 0 <= i < |init| ==> init[i] == languages[i];
      r
  }

  /** The columns one member of an index group contributes. */
  function MemberColumns(m: IndexMember, multilang: seq<string>, languages: seq<string>): (r: seq<string>)
    ensures |r| == if m.field in multilang then |languages| else 1
  {
    if m.field in multilang then LangIndexColumns(m.field, m.length, languages)
    else [IndexColumn(m.field, m.length)]
  }

  /** The columns of an index group, member after member. */
  function GroupColumns(members: seq<IndexMember>, multilang: seq<string>, languages: seq<string>): seq<string>
    decreases |members|
  {
    if members == [] then []
    else GroupColumns(members[..|members| - 1], multilang, languages) + MemberColumns(members[|members| - 1], multilang, languages)
  }

  /** One CREATE per language for a single-field index on a multi-lingual field. */
  function SingleLangPlan(kind: string, name: string, field: string, length: Option<string>, table: string, languages: seq<string>): (r: seq<Planned>)
    ensures |r| == |languages|
    ensures forall i :: 0 <= i < |r| ==>
      r[i] == Planned(CreateIndex(kind, name + "_" + languages[i], table, [IndexColumn(field + "_" + languages[i], length)]), 508)
    decreases |languages|
  {
    if languages == [] then []
    else
      var init := languages[..|languages| - 1];
      var lang := languages[|languages| - 1];
      var r := SingleLangPlan(kind, name, field, length, table, init)
        + [Planned(CreateIndex(kind, name + "_" + lang, table, [IndexColumn(field + "_" + lang, length)]), 508)];
      assert forall i :: 0 <= i < |init| ==> init[i] == languages[i];
      r
  }

  lemma SingleLangPlanSnoc(kind: string, name: string, field: string, length: Option<string>, table: string, languages: seq<string>, k: int)
    requires 0 <= k < |languages|
    ensures SingleLangPlan(kind, name, field, length, table, languages[..k + 1])
      == SingleLangPlan(kind, name, field, length, table, languages[..k])
        + [Planned(CreateIndex(kind, name + "_" + languages[k], table, [IndexColumn(field + "_" + languages[k], length)]), 508)]
  {
    assert languages[..k + 1][..k] == languages[..k];
  }

  /**
   * The statements one index node yields. A single field that is
   * multi-lingual gets one index per language; any other node gets one
   * combined index unless its own field attribute names a multi-lingual
   * field.
   */
  function NodePlan(kind: string, node: IndexNode, table: string, multilang: seq<string>, languages: seq<string>): (r: seq<Planned>)
    ensures forall i :: 0 <= i < |r| ==> r[i].stmt.CreateIndex? && r[i].stmt.kind == kind && r[i].stmt.table == table
    ensures node.Single? && node.field in multilang ==> |r| == |languages| && forall i :: 0 <= i < |r| ==>
      r[i].stmt == CreateIndex(kind, node.name + "_" + languages[i], table, [IndexColumn(node.field + "_" + languages[i], node.length)])
    ensures node.Single? && node.field !in multilang ==> |r| == 1 && r[0].stmt == CreateIndex(kind, node.name, table, [IndexColumn(node.field, node.length)])
    ensures node.Group? && node.field !in multilang ==> |r| == 1 && r[0].stmt == CreateIndex(kind, node.groupName, table, GroupColumns(node.members, multilang, languages))
    ensures node.Group? && node.field in multilang ==> r == []
  {
    match node
    case Single(name, field, length) =>
      (if field in multilang then SingleLangPlan(kind, name, field, length, table, languages) else [])
        + (if field !in multilang then [Planned(CreateIndex(kind, name, table, [IndexColumn(field, length)]), 525)] else [])
    case Group(groupName, field, members) =>
      if field !in multilang then [Planned(CreateIndex(kind, groupName, table, GroupColumns(members, multilang, languages)), 525)] else []
  }

  /** The statements of the nodes of one section, node after node. */
  function NodesPlan(kind: string, nodes: seq<IndexNode>, table: string, multilang: seq<string>, languages: seq<string>): (r: seq<Planned>)
    ensures forall i :: 0 <= i < |r| ==> r[i].stmt.CreateIndex? && r[i].stmt.kind == kind && r[i].stmt.table == table
    decreases |nodes|
  {
    if nodes == [] then []
    else NodesPlan(kind, nodes[..|nodes| - 1], table, multilang, languages) + NodePlan(kind, nodes[|nodes| - 1], table, multilang, languages)
  }

  /** The index statements of a table, section after section. */
  function IndexPlan(sections: seq<IndexSection>, table: string, multilang: seq<string>, languages: seq<string>): (r: seq<Planned>)
    ensures forall i :: 0 <= i < |r| ==> r[i].stmt.CreateIndex? && r[i].stmt.table == table
    decreases |sections|
  {
    if sections == [] then []
    else
      var last := sections[|sections| - 1];
      IndexPlan(sections[..|sections| - 1], table, multilang, languages) + NodesPlan(IndexKind(last.tag), last.nodes, table, multilang, languages)
  }

  // ---------------------------------------------------------------------------
  // fillTables
  // ---------------------------------------------------------------------------

  /** A row is named when its first value carries a non-empty name attribute. */
  predicate IsNamed(row: DataRow) {
    |row.values| > 0 && Given(row.values[0].name)
  }

  function Quoted(escape: string -> string, value: string): string {
    "'" + escape(value) + "'"
  }

  /** The assignments one named value yields: one per language for a multi-lingual field, each with the same value. */
  function ValueAssignments(escape: string -> string, v: DataValue, multilang: seq<string>, languages: seq<string>): (r: seq<string>)
    ensures |r| == if v.name.GetOr("") in multilang then |languages| else 1
    ensures v.name.GetOr("") !in multilang ==> r == ["`" + v.name.GetOr("") + "` = " + Quoted(escape, v.value)]
    ensures v.name.GetOr("") in multilang ==> forall i :: 0 <= i < |r| ==>
      r[i] == "`" + v.name.GetOr("") + "_" + languages[i] + "` = " + Quoted(escape, v.value)
    decreases |languages|
  {
    var name := v.name.GetOr("");
    if name !in multilang then ["`" + name + "` = " + Quoted(escape, v.value)]
    else if languages == [] then []
    else
      var init := languages[..|languages| - 1];
      var r := ValueAssignments(escape, v, multilang, init)
        + ["`" + name + "_" + languages[|languages| - 1] + "` = " + Quoted(escape, v.value)];
      assert forall i :: 0 <= i < |init| ==> init[i] == languages[i];
      r
  }

  function Assignments(escape: string -> string, values: seq<DataValue>, multilang: seq<string>, languages: seq<string>): seq<string>
    decreases |values|
  {
    if values == [] then []
    else Assignments(escape, values[..|values| - 1], multilang, languages) + ValueAssignments(escape, values[|values| - 1], multilang, languages)
  }

  /** The quoted values of a positional row, in order. */
  function Literals(escape: string -> string, values: seq<DataValue>): (r: seq<string>)
    ensures |r| == |values|
    ensures forall i :: 0 <= i < |r| ==> r[i] == Quoted(escape, values[i].value)
    decreases |values|
  {
    if values == [] then []
    else
      var init := values[..|values| - 1];
      var r := Literals(escape, init) + [Quoted(escape, values[|values| - 1].value)];
      assert forall i :: 0 <= i < |init| ==> init[i] == values[i];
      r
  }

  /** array_slice(names, 0, k). */
  function Take(names: seq<string>, k: nat): (r: seq<string>)
    ensures |r| == if k <= |names| then k else |names|
    ensures r == names[..|r|]
  {
    if k <= |names| then names[..k] else names
  }

  /**
   * The INSERT one data row becomes. A named row sets each named column; a
   * positional row lists the first natural-order field names and the values.
   */
  function RowStatement(escape: string -> string, table: string, row: DataRow, multilang: seq<string>, languages: seq<string>, natural: seq<string>): (r: Statement)
    ensures (r.InsertSet? || r.InsertValues?) && r.table == table
    ensures r.InsertSet? <==> IsNamed(row)
    ensures r.InsertValues? ==> |r.values| == |row.values| && forall i :: 0 <= i < |row.values| ==> r.values[i] == Quoted(escape, row.values[i].value)
  {
    if IsNamed(row) then InsertSet(table, Assignments(escape, row.values, multilang, languages))
    else InsertValues(table, Join(", ", Take(natural, |row.values|)), Literals(escape, row.values))
  }

  // ---------------------------------------------------------------------------
  // alterTable
  // ---------------------------------------------------------------------------

  /** The Field column of DESCRIBE's rows, in order. */
  function FieldValues(rows: seq<Row>): (r: seq<string>)
    ensures |r| == |rows|
    ensures forall i :: 0 <= i < |r| ==> r[i] == Field(rows[i], "Field")
    decreases |rows|
  {
    if rows == [] then []
    else
      var init := rows[..|rows| - 1];
      var r := FieldValues(init) + [Field(rows[|rows| - 1], "Field")];
      assert forall i :: 0 <= i < |init| ==> init[i] == rows[i];
      r
  }

  /** The column snapshot alterTable takes once: the existing column names, none when DESCRIBE fails. */
  function Snapshot(result: Option<Answer>): seq<string> {
    if result.Some? then FieldValues(result.value.rows) else []
  }

  /** mb_strtolower(s) == 'no' for ASCII text. */
  predicate IsNo(s: string) {
    |s| == 2 && (s[0] == 'n' || s[0] == 'N') && (s[1] == 'o' || s[1] == 'O')
  }

  /** The CHANGE COLUMN a rename rule issues, from the SHOW COLUMNS row (no columns when that failed). */
  function RenameStatement(escape: string -> string, table: string, target: string, value: string, row: Row): (r: Statement)
    ensures r.ChangeColumn? && r.table == table && r.target == target && r.value == value
    ensures r.sqlType == Field(row, "Type") && r.extra == Field(row, "Extra")
    ensures r.default == "" <==> EmptyString(Field(row, "Default"))
    ensures r.nullClause == (if IsNo(Field(row, "Null")) then "NOT NULL" else "NULL")
  {
    var default := Field(row, "Default");
    ChangeColumn(table, target, value, Field(row, "Type"), Field(row, "Extra"),
      if !EmptyString(default) then "DEFAULT " + escape(default) else "",
      if IsNo(Field(row, "Null")) then "NOT NULL" else "NULL")
  }

  /** The statement of every rule other than a rename; unknown tags issue nothing. */
  function RuleStatement(escape: string -> string, table: string, rule: AlterRule): (r: Option<Statement>)
    requires !rule.RenameField?
    ensures r.None? <==> rule.Unknown?
  {
    match rule
    case DeleteField(target) => Some(DropColumn(table, target))
    case AlterField(target, options) => Some(ModifyColumn(table, target, BuildFieldOptions(escape, options)))
    case DropIndex(target) => Some(Statements.DropIndex(table, target))
    case Unknown(_) => None
  }

  /** The fields to add as plain columns: neither in the snapshot nor multi-lingual, in description order. */
  function NewPlainFields(fields: seq<FieldSpec>, snapshot: seq<string>): (r: seq<string>)
    ensures forall n :: n in r <==> exists i :: 0 <= i < |fields| && fields[i].name == n && n !in snapshot && !fields[i].multiLingual
    decreases |fields|
  {
    if fields == [] then []
    else
      var init := fields[..|fields| - 1];
      var last := fields[|fields| - 1];
      var r := NewPlainFields(init, snapshot) + (if last.name !in snapshot && !last.multiLingual then [last.name] else []);
      assert forall i :: 0 <= i < |init| ==> init[i] == fields[i];
      r
  }

  /** The keys of $all_fields_info: each field name once, in order of first appearance. */
  function FieldSequence(fields: seq<FieldSpec>): (r: seq<string>)
    ensures forall n :: n in r <==> exists i :: 0 <= i < |fields| && fields[i].name == n
    ensures forall i, j :: 0 <= i < j < |r| ==> r[i] != r[j]
    decreases |fields|
  {
    if fields == [] then []
    else
      var init := fields[..|fields| - 1];
      var last := fields[|fields| - 1];
      var r := FieldSequence(init) + (if last.name in FieldSequence(init) then [] else [last.name]);
      assert forall i :: 0 <= i < |init| ==> init[i] == fields[i];
      r
  }

  /** A field node with no children, as buildFieldOptions sees a missing one. */
  function EmptyField(name: string): FieldSpec {
    FieldSpec(name, "", None, None, None, None, false, false, false, false, false, false, false, None, false)
  }

  /** $all_fields_info[name]: the last definition of a field name. */
  function DefinitionOf(fields: seq<FieldSpec>, name: string): (r: FieldSpec)
    ensures (exists i :: 0 <= i < |fields| && fields[i].name == name) ==>
      exists i :: 0 <= i < |fields| && fields[i] == r && r.name == name && forall j :: i < j < |fields| ==> fields[j].name != name
    decreases |fields|
  {
    if fields == [] then EmptyField(name)
    else if fields[|fields| - 1].name == name then fields[|fields| - 1]
    else
      var init := fields[..|fields| - 1];
      var r := DefinitionOf(init, name);
      assert forall i :: 0 <= i < |init| ==> init[i] == fields[i];
      assert (exists i :: 0 <= i < |fields| && fields[i].name == name) ==> exists i :: 0 <= i < |init| && init[i].name == name;
      r
  }

  /** One more field node extends each classification by that node alone. */
  lemma ClassifySnoc(fields: seq<FieldSpec>, i: int, snapshot: seq<string>)
    requires 0 <= i < |fields|
    ensures var f := fields[i];
      && NewPlainFields(fields[..i + 1], snapshot) == NewPlainFields(fields[..i], snapshot) + (if f.name !in snapshot && !f.multiLingual then [f.name] else [])
      && MultiLingualNames(fields[..i + 1]) == MultiLingualNames(fields[..i]) + (if f.multiLingual then [f.name] else [])
      && FieldSequence(fields[..i + 1]) == FieldSequence(fields[..i]) + (if f.name in FieldSequence(fields[..i]) then [] else [f.name])
  {
    assert fields[..i + 1][..i] == fields[..i];
  }

  /** array_search: the first position of a name, -1 when absent. */
  function IndexOf(names: seq<string>, name: string): (r: int)
    ensures -1 <= r < |names|
    ensures r >= 0 ==> names[r] == name && forall j :: 0 <= j < r ==> names[j] != name
    ensures r == -1 ==> name !in names
    decreases |names|
  {
    if names == [] then -1
    else if names[0] == name then 0
    else
      var k := IndexOf(names[1..], name);
      if k == -1 then -1 else k + 1
  }

  /**
   * Where a new language column goes: FIRST when its field is first in
   * description order, after the previous field's bare name when that
   * name is in the snapshot, and nowhere in particular otherwise.
   */
  function Position(name: string, sequence: seq<string>, snapshot: seq<string>): (r: string)
    ensures r == "FIRST" <==> |sequence| > 0 && sequence[0] == name
    ensures r != "FIRST" && r != "" ==> exists k :: 0 < k < |sequence| && sequence[k] == name && sequence[k - 1] in snapshot && r == "AFTER " + sequence[k - 1]
    ensures name !in sequence ==> r == ""
    ensures forall k :: 0 < k < |sequence| && sequence[k] == name && name !in sequence[..k] ==>
      r == if sequence[k - 1] in snapshot then "AFTER " + sequence[k - 1] else ""
  {
    var k := IndexOf(sequence, name);
    if k == 0 then "FIRST"
    else if k > 0 && sequence[k - 1] in snapshot then "AFTER " + sequence[k - 1]
    else ""
  }

  /** The options a new column of a field gets: those of the field's last definition. */
  function NewOptions(escape: string -> string, fields: seq<FieldSpec>, name: string): string {
    BuildFieldOptions(escape, DefinitionOf(fields, name))
  }

  /** The plain ADD of one new field. */
  function PlainAdd(escape: string -> string, table: string, fields: seq<FieldSpec>, name: string): Planned {
    Planned(AddColumn(table, name, NewOptions(escape, fields, name)), 633)
  }

  /** The plain ADDs, in description order. */
  function PlainAdds(escape: string -> string, table: string, names: seq<string>, fields: seq<FieldSpec>): (r: seq<Planned>)
    ensures |r| == |names|
    ensures forall i :: 0 <= i < |r| ==> r[i].stmt.AddColumn? && r[i].stmt.table == table && r[i].stmt.column == names[i]
    decreases |names|
  {
    if names == [] then []
    else
      PlainAdds(escape, table, names[..|names| - 1], fields) + [PlainAdd(escape, table, fields, names[|names| - 1])]
  }

  /** The language columns of one multi-lingual field that the snapshot lacks, in language order. */
  function LangAddsFor(escape: string -> string, table: string, name: string, languages: seq<string>, fields: seq<FieldSpec>, snapshot: seq<string>): (r: seq<Planned>)
    ensures forall i :: 0 <= i < |r| ==> r[i].stmt.AddLangColumn? && r[i].stmt.table == table && r[i].stmt.column !in snapshot
    decreases |languages|
  {
    if languages == [] then []
    else
      var column := name + "_" + languages[|languages| - 1];
      LangAddsFor(escape, table, name, languages[..|languages| - 1], fields, snapshot)
        + (if column !in snapshot
           then [Planned(AddLangColumn(table, column, NewOptions(escape, fields, name), Position(name, FieldSequence(fields), snapshot)), 669)]
           else [])
  }

  function LangAdds(escape: string -> string, table: string, names: seq<string>, languages: seq<string>, fields: seq<FieldSpec>, snapshot: seq<string>): (r: seq<Planned>)
    ensures forall i :: 0 <= i < |r| ==> r[i].stmt.AddLangColumn? && r[i].stmt.table == table && r[i].stmt.column !in snapshot
    decreases |names|
  {
    if names == [] then []
    else
      LangAdds(escape, table, names[..|names| - 1], languages, fields, snapshot)
        + LangAddsFor(escape, table, names[|names| - 1], languages, fields, snapshot)
  }

  /** Every ADD alterTable issues: the plain fields first, then the missing language columns. */
  function AddPlan(escape: string -> string, table: string, fields: seq<FieldSpec>, snapshot: seq<string>, languages: seq<string>): (r: seq<Planned>)
    ensures forall i :: 0 <= i < |r| ==>
      && (r[i].stmt.AddColumn? || r[i].stmt.AddLangColumn?)
      && r[i].stmt.table == table && r[i].stmt.column !in snapshot
  {
    PlainAdds(escape, table, NewPlainFields(fields, snapshot), fields)
      + LangAdds(escape, table, MultiLingualNames(fields), languages, fields, snapshot)
  }

  // ---------------------------------------------------------------------------
  // Prefixes of the ADD plan (what has been issued when a statement fails)
  // ---------------------------------------------------------------------------

  /** The i-th plain ADD is the ADD of the i-th name. */
  lemma {:induction false} PlainAddsAt(escape: string -> string, table: string, names: seq<string>, fields: seq<FieldSpec>, i: int)
    requires 0 <= i < |names|
    ensures PlainAdds(escape, table, names, fields)[i] == PlainAdd(escape, table, fields, names[i])
    decreases |names|
  {
    var init := names[..|names| - 1];
    if i < |init| {
      PlainAddsAt(escape, table, init, fields, i);
      assert init[i] == names[i];
    }
  }

  lemma {:induction false} PlainAddsUpTo(escape: string -> string, table: string, names: seq<string>, j: nat, fields: seq<FieldSpec>)
    requires j <= |names|
    ensures PlainAdds(escape, table, names[..j], fields) <= PlainAdds(escape, table, names, fields)
  {
    var a := PlainAdds(escape, table, names[..j], fields);
    var b := PlainAdds(escape, table, names, fields);
    forall i | 0 <= i < |a|
      ensures a[i] == b[i]
    {
      PlainAddsAt(escape, table, names[..j], fields, i);
      PlainAddsAt(escape, table, names, fields, i);
      assert names[..j][i] == names[i];
    }
  }

  lemma {:induction false} LangAddsForUpTo(escape: string -> string, table: string, name: string, languages: seq<string>, k: nat, fields: seq<FieldSpec>, snapshot: seq<string>)
    requires k <= |languages|
    ensures LangAddsFor(escape, table, name, languages[..k], fields, snapshot) <= LangAddsFor(escape, table, name, languages, fields, snapshot)
    decreases |languages|
  {
    if k < |languages| {
      var init := languages[..|languages| - 1];
      assert init[..k] == languages[..k];
      LangAddsForUpTo(escape, table, name, init, k, fields, snapshot);
    } else {
      assert languages[..k] == languages;
    }
  }

  lemma {:induction false} LangAddsUpTo(escape: string -> string, table: string, names: seq<string>, j: nat, languages: seq<string>, fields: seq<FieldSpec>, snapshot: seq<string>)
    requires j <= |names|
    ensures LangAdds(escape, table, names[..j], languages, fields, snapshot) <= LangAdds(escape, table, names, languages, fields, snapshot)
    decreases |names|
  {
    if j < |names| {
      var init := names[..|names| - 1];
      assert init[..j] == names[..j];
      LangAddsUpTo(escape, table, init, j, languages, fields, snapshot);
    } else {
      assert names[..j] == names;
    }
  }

  /** What the language loop has issued for the names before i and the languages before k is a prefix of all of it. */
  lemma LangAddsPartial(escape: string -> string, table: string, names: seq<string>, i: nat, languages: seq<string>, k: nat, fields: seq<FieldSpec>, snapshot: seq<string>)
    requires i < |names| && k <= |languages|
    ensures LangAdds(escape, table, names[..i], languages, fields, snapshot) + LangAddsFor(escape, table, names[i], languages[..k], fields, snapshot)
      <= LangAdds(escape, table, names, languages, fields, snapshot)
  {
    var a := LangAdds(escape, table, names[..i], languages, fields, snapshot);
    var part := LangAddsFor(escape, table, names[i], languages[..k], fields, snapshot);
    var whole := LangAddsFor(escape, table, names[i], languages, fields, snapshot);
    LangAddsForUpTo(escape, table, names[i], languages, k, fields, snapshot);
    assert names[..i + 1][..i] == names[..i];
    assert LangAdds(escape, table, names[..i + 1], languages, fields, snapshot) == a + whole;
    LangAddsUpTo(escape, table, names, i + 1, languages, fields, snapshot);
    assert a + part == (a + whole)[..|a + part|];
  }

  lemma PlainAddsSnoc(escape: string -> string, table: string, names: seq<string>, i: nat, fields: seq<FieldSpec>)
    requires i < |names|
    ensures PlainAdds(escape, table, names[..i + 1], fields) == PlainAdds(escape, table, names[..i], fields) + [PlainAdd(escape, table, fields, names[i])]
  {
    assert names[..i + 1][..i] == names[..i];
  }

  lemma LangAddsForSnoc(escape: string -> string, table: string, name: string, languages: seq<string>, k: nat, fields: seq<FieldSpec>, snapshot: seq<string>)
    requires k < |languages|
    ensures var column := name + "_" + languages[k];
      LangAddsFor(escape, table, name, languages[..k + 1], fields, snapshot)
        == LangAddsFor(escape, table, name, languages[..k], fields, snapshot)
          + if column !in snapshot then [Planned(AddLangColumn(table, column, NewOptions(escape, fields, name), Position(name, FieldSequence(fields), snapshot)), 669)] else []
  {
    assert languages[..k + 1][..k] == languages[..k];
  }
}
