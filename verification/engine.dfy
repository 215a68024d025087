/**
 * The MySQLi engine's methods on a codb instance: each issues its statements
 * through makeQuery, in the order and with the loops of the engine, and is
 * proved to leave the instance as its function in module EngineSpec says.
 */
module Engine {
  import opened Common
  import opened Macros
  import opened Errors
  import opened Link
  import opened CodbCore
  import opened Schema
  import opened FieldOptions
  import opened Statements
  import opened Plans
  import opened EngineSpec

  // ---------------------------------------------------------------------------
  // makeQuery and query
  // ---------------------------------------------------------------------------

  /**
   * makeQuery: the statement's text goes through the macro processor. frame is
   * the backtrace frame addError reports on failure: the caller of the method
   * (query, getAssoc, getCol) that called makeQuery.
   */
  method MakeQuery(db: Codb, text: string, frame: Origin) returns (result: Option<Answer>)
    modifies db
    ensures db.Params() == old(db.Params())
    ensures Outcome(db.State(), result) == MakeQuerySpec(old(db.Cfg()), old(db.State()), text, frame)
    ensures db.server.connected ==> (db.IsError() <==> result.None?)
    ensures !db.server.connected ==> db.IsError() == old(db.IsError())
  {
    if !db.server.connected {
      return None;
    }
    db.isQueryFailed := false;
    db.affectedRows := 0;
    db.lastInsertedId := 0;
    var wire := db.ProcessMacros(text);
    var a := db.server.execute(db.sent + [wire]);
    db.sent := db.sent + [wire];
    db.linkError := a.error;
    db.affectedRows := a.affected;
    if a.ok {
      if db.affectedRows > 0 {
        db.lastInsertedId := a.insertId;
      }
      result := Some(a);
    } else {
      db.AddError(QueryFailed, a.error, "", frame);
      result := None;
    }
  }

  /** query: whether makeQuery returned a result. */
  method Query(db: Codb, stmt: Statement, frame: Origin) returns (ok: bool)
    modifies db
    ensures db.Params() == old(db.Params())
    ensures var o := MakeQuerySpec(old(db.Cfg()), old(db.State()), Render(stmt), frame);
      db.State() == o.state && ok == o.result.Some?
  {
    var result := MakeQuery(db, Render(stmt), frame);
    ok := result.Some?;
  }

  // ---------------------------------------------------------------------------
  // createTable
  // ---------------------------------------------------------------------------

  /** The loop over the fields: the column definitions, the multi-lingual names and the natural order. */
  method ColumnList(escape: string -> string, fields: seq<FieldSpec>, languages: seq<string>)
    returns (columns: seq<string>, multilang: seq<string>, natural: seq<string>)
    ensures columns == ColumnDefs(escape, fields, languages)
    ensures multilang == MultiLingualNames(fields)
    ensures natural == NaturalOrder(fields)
  {
    columns, multilang, natural := [], [], [];
    for i := 0 to |fields|
      invariant columns == ColumnDefs(escape, fields[..i], languages)
      invariant multilang == MultiLingualNames(fields[..i])
      invariant natural == NaturalOrder(fields[..i])
    {
      var field := fields[i];
      natural := natural + [field.name];
      var options := BuildFieldOptions(escape, field);
      if field.multiLingual {
        multilang := multilang + [field.name];
        columns := AppendLangColumns(columns, field.name, options, languages);
      } else {
        columns := columns + [ColumnDef(field.name, options)];
      }
      assert fields[..i + 1][..i] == fields[..i];
    }
    assert fields[..|fields|] == fields;
  }

  /** The inner loop over the languages: one column per language, all with the same options. */
  method AppendLangColumns(columns: seq<string>, name: string, options: string, languages: seq<string>) returns (r: seq<string>)
    ensures r == columns + LangColumns(name, options, languages)
  {
    r := columns;
    for k := 0 to |languages|
      invariant r == columns + LangColumns(name, options, languages[..k])
    {
      ghost var prev := LangColumns(name, options, languages[..k]);
      var column := ColumnDef(name + "_" + languages[k], options);
      r := r + [column];
      assert languages[..k + 1][..k] == languages[..k];
      assert LangColumns(name, options, languages[..k + 1]) == prev + [column];
      assert r == columns + (prev + [column]);
    }
    assert languages[..|languages|] == languages;
  }

  /** The columns of an index group, each multi-lingual member expanded over the languages. */
  method GroupIndexColumns(members: seq<IndexMember>, multilang: seq<string>, languages: seq<string>) returns (columns: seq<string>)
    ensures columns == GroupColumns(members, multilang, languages)
  {
    columns := [];
    for i := 0 to |members|
      invariant columns == GroupColumns(members[..i], multilang, languages)
    {
      var member := members[i];
      if member.field in multilang {
        for k := 0 to |languages|
          invariant columns == GroupColumns(members[..i], multilang, languages) + LangIndexColumns(member.field, member.length, languages[..k])
        {
          columns := columns + [IndexColumn(member.field + "_" + languages[k], member.length)];
          assert languages[..k + 1][..k] == languages[..k];
        }
        assert languages[..|languages|] == languages;
      } else {
        columns := columns + [IndexColumn(member.field, member.length)];
      }
      assert members[..i + 1][..i] == members[..i];
    }
    assert members[..|members|] == members;
  }

  /** One index statement; a failure records INDEX_CREATE with the statement text and the loop goes on. */
  method IssueIndex(db: Codb, stmt: Statement, line: int, table: string, frame: Origin)
    modifies db
    ensures db.Params() == old(db.Params())
    ensures db.State() == IndexStep(old(db.Cfg()), old(db.State()), Planned(stmt, line), table, frame)
  {
    var ok := Query(db, stmt, Origin(db.enginePath, line));
    if !ok {
      db.AddError(IndexCreate(Render(stmt)), db.linkError, table, frame);
    }
  }

  /** The per-language indexes of a single-field index over a multi-lingual field. */
  method SingleLangIndexes(db: Codb, kind: string, name: string, field: string, length: Option<string>, table: string, languages: seq<string>, frame: Origin)
    modifies db
    ensures db.Params() == old(db.Params()) && db.Cfg() == old(db.Cfg())
    ensures db.State() == RunIndexes(old(db.Cfg()), old(db.State()), SingleLangPlan(kind, name, field, length, table, languages), table, frame)
  {
    ghost var c := db.Cfg();
    ghost var s0 := db.State();
    for k := 0 to |languages|
      invariant db.Cfg() == c
      invariant db.State() == RunIndexes(c, s0, SingleLangPlan(kind, name, field, length, table, languages[..k]), table, frame)
    {
      var lang := languages[k];
      var p := Planned(CreateIndex(kind, name + "_" + lang, table, [IndexColumn(field + "_" + lang, length)]), 508);
      SingleLangPlanSnoc(kind, name, field, length, table, languages, k);
      RunIndexesSnoc(c, s0, SingleLangPlan(kind, name, field, length, table, languages[..k]), p, table, frame);
      IssueIndex(db, p.stmt, p.line, table, frame);
    }
    assert languages[..|languages|] == languages;
  }

  /** The statements of one index node. */
  method NodeIndexes(db: Codb, kind: string, node: IndexNode, table: string, multilang: seq<string>, languages: seq<string>, frame: Origin)
    modifies db
    ensures db.Params() == old(db.Params())
    ensures db.State() == RunIndexes(old(db.Cfg()), old(db.State()), NodePlan(kind, node, table, multilang, languages), table, frame)
  {
    ghost var c := db.Cfg();
    ghost var s0 := db.State();
    ghost var issued := NodePlan(kind, node, table, multilang, languages);
    var columns: seq<string> := [];
    var name: string;
    if node.Group? {
      name := node.groupName;
      columns := GroupIndexColumns(node.members, multilang, languages);
    } else {
      name := node.name;
      if node.field in multilang {
        SingleLangIndexes(db, kind, name, node.field, node.length, table, languages, frame);
        assert issued == SingleLangPlan(kind, name, node.field, node.length, table, languages);
      } else {
        columns := [IndexColumn(node.field, node.length)];
      }
    }
    if node.field !in multilang {
      assert issued == [Planned(CreateIndex(kind, name, table, columns), 525)];
      IssueIndex(db, CreateIndex(kind, name, table, columns), 525, table, frame);
      RunIndexesOne(c, s0, issued, table, frame);
    }
  }

  /** The loop over the nodes of one index section. */
  method SectionIndexes(db: Codb, kind: string, nodes: seq<IndexNode>, table: string, multilang: seq<string>, languages: seq<string>, frame: Origin)
    modifies db
    ensures db.Params() == old(db.Params())
    ensures db.State() == RunIndexes(old(db.Cfg()), old(db.State()), NodesPlan(kind, nodes, table, multilang, languages), table, frame)
  {
    ghost var c := db.Cfg();
    ghost var s0 := db.State();
    for j := 0 to |nodes|
      invariant db.Cfg() == c
      invariant db.State() == RunIndexes(c, s0, NodesPlan(kind, nodes[..j], table, multilang, languages), table, frame)
    {
      ghost var done := NodesPlan(kind, nodes[..j], table, multilang, languages);
      ghost var next := NodePlan(kind, nodes[j], table, multilang, languages);
      NodeIndexes(db, kind, nodes[j], table, multilang, languages, frame);
      RunIndexesConcat(c, s0, done, next, table, frame);
      assert nodes[..j + 1][..j] == nodes[..j];
      assert NodesPlan(kind, nodes[..j + 1], table, multilang, languages) == done + next;
    }
    assert nodes[..|nodes|] == nodes;
  }

  /** The loop over the index sections, each tag naming its index type. */
  method CreateIndexes(db: Codb, table: string, sections: seq<IndexSection>, multilang: seq<string>, languages: seq<string>, frame: Origin)
    modifies db
    ensures db.Params() == old(db.Params())
    ensures db.State() == RunIndexes(old(db.Cfg()), old(db.State()), IndexPlan(sections, table, multilang, languages), table, frame)
  {
    ghost var c := db.Cfg();
    ghost var s0 := db.State();
    for i := 0 to |sections|
      invariant db.Cfg() == c
      invariant db.State() == RunIndexes(c, s0, IndexPlan(sections[..i], table, multilang, languages), table, frame)
    {
      var kind := IndexKind(sections[i].tag);
      ghost var done := IndexPlan(sections[..i], table, multilang, languages);
      ghost var next := NodesPlan(kind, sections[i].nodes, table, multilang, languages);
      SectionIndexes(db, kind, sections[i].nodes, table, multilang, languages, frame);
      RunIndexesConcat(c, s0, done, next, table, frame);
      assert sections[..i + 1][..i] == sections[..i];
      assert IndexPlan(sections[..i + 1], table, multilang, languages) == done + next;
    }
    assert sections[..|sections|] == sections;
  }

  /** The loop over the available languages for a named multi-lingual value: one assignment each, same value. */
  method AppendLangAssignments(values: seq<string>, escape: string -> string, v: DataValue, multilang: seq<string>, languages: seq<string>) returns (r: seq<string>)
    requires v.name.GetOr("") in multilang
    ensures r == values + ValueAssignments(escape, v, multilang, languages)
  {
    var name := v.name.GetOr("");
    r := values;
    for k := 0 to |languages|
      invariant r == values + ValueAssignments(escape, v, multilang, languages[..k])
    {
      ghost var prev := ValueAssignments(escape, v, multilang, languages[..k]);
      var assignment := "`" + name + "_" + languages[k] + "` = " + Quoted(escape, v.value);
      r := r + [assignment];
      assert languages[..k + 1][..k] == languages[..k];
      assert ValueAssignments(escape, v, multilang, languages[..k + 1]) == prev + [assignment];
      assert r == values + (prev + [assignment]);
    }
    assert languages[..|languages|] == languages;
  }

  /** The loop over one data row's values, deciding the row's mode from its first value. */
  method RowInsert(db: Codb, table: string, row: DataRow, multilang: seq<string>, natural: seq<string>) returns (stmt: Statement)
    ensures stmt == RowStatement(EscapeFn(db.Cfg()), table, row, multilang, db.availableLanguages, natural)
  {
    var escape := EscapeFn(db.Cfg());
    var languages := db.availableLanguages;
    var named: Option<bool> := None;
    var values: seq<string> := [];
    for i := 0 to |row.values|
      invariant named == if i == 0 then None else Some(IsNamed(row))
      invariant named == Some(true) ==> values == Assignments(escape, row.values[..i], multilang, languages)
      invariant named != Some(true) ==> values == Literals(escape, row.values[..i])
    {
      var v := row.values[i];
      if named.None? {
        named := Some(Given(v.name));
      }
      assert row.values[..i + 1][..i] == row.values[..i];
      if named.value {
        var name := v.name.GetOr("");
        if name in multilang {
          values := AppendLangAssignments(values, escape, v, multilang, languages);
        } else {
          values := values + ["`" + name + "` = " + Quoted(escape, v.value)];
        }
      } else {
        values := values + [Quoted(escape, v.value)];
      }
    }
    assert row.values[..|row.values|] == row.values;
    if named == Some(true) {
      stmt := InsertSet(table, values);
    } else {
      stmt := InsertValues(table, Join(", ", Take(natural, |row.values|)), values);
    }
  }

  /** One INSERT; a failure records INSERT_DATA and the next row is still tried. */
  method IssueInsert(db: Codb, stmt: Statement, table: string, frame: Origin)
    modifies db
    ensures db.Params() == old(db.Params()) && db.Cfg() == old(db.Cfg())
    ensures db.State() == InsertStep(old(db.Cfg()), old(db.State()), Planned(stmt, 735), table, frame)
  {
    var ok := Query(db, stmt, Origin(db.enginePath, 735));
    if !ok {
      db.AddError(InsertData, table, "", frame);
    }
  }

  /** fillTables, with the table's natural field order passed in. */
  method FillTables(db: Codb, t: TableSpec, multilang: seq<string>, natural: seq<string>, frame: Origin)
    modifies db
    ensures db.Params() == old(db.Params())
    ensures db.State() == FillSpec(old(db.Cfg()), old(db.State()), t, multilang, natural, frame)
  {
    ghost var c := db.Cfg();
    ghost var s0 := db.State();
    for i := 0 to |t.data|
      invariant db.Cfg() == c
      invariant db.State() == RunInserts(c, s0, InsertPlan(c, t.name, t.data[..i], multilang, natural), t.name, frame)
    {
      ghost var done := InsertPlan(c, t.name, t.data[..i], multilang, natural);
      var stmt := RowInsert(db, t.name, t.data[i], multilang, natural);
      InsertPlanSnoc(c, t.name, t.data, i, multilang, natural);
      RunInsertsSnoc(c, s0, done, Planned(stmt, 735), t.name, frame);
      IssueInsert(db, stmt, t.name, frame);
    }
    assert t.data[..|t.data|] == t.data;
  }

  /** createTable; frame is where it was called from. */
  method CreateTable(db: Codb, t: TableSpec, languages: seq<string>, frame: Origin) returns (ok: bool)
    modifies db
    ensures db.Params() == old(db.Params())
    ensures Step(db.State(), ok) == CreateTableSpec(old(db.Cfg()), old(db.State()), t, languages, frame)
  {
    var shown := MakeQuery(db, Render(ShowTables(t.name)), Origin(db.enginePath, 414));
    var present := FirstValueHolds(shown);
    if |t.fields| > 0 && !present {
      ok := BuildTable(db, t, languages, frame);
    } else if |t.fields| == 0 {
      db.AddError(NoTableFields, t.name, "", frame);
      ok := false;
    } else {
      db.AddError(TableExists, t.name, "", frame);
      ok := false;
    }
  }

  /** The CREATE statement, then (only if it succeeded) the indexes and the data rows. */
  method BuildTable(db: Codb, t: TableSpec, languages: seq<string>, frame: Origin) returns (ok: bool)
    modifies db
    ensures db.Params() == old(db.Params())
    ensures Step(db.State(), ok) == BuildTableSpec(old(db.Cfg()), old(db.State()), t, languages, frame)
  {
    var columns, multilang, natural := ColumnList(EscapeFn(db.Cfg()), t.fields, languages);
    var created := Query(db, Statements.CreateTable(t.name, columns, t.options.engine, CharsetClause(t.options), CollateClause(t.options)), Origin(db.enginePath, 449));
    if !created {
      db.AddError(TableCreate, t.name, db.linkError, frame);
      return false;
    }
    CreateIndexes(db, t.name, t.indexes, multilang, languages, frame);
    FillTables(db, t, multilang, natural, Origin(db.enginePath, 537));
    ok := true;
  }

  // ---------------------------------------------------------------------------
  // alterTable
  // ---------------------------------------------------------------------------

  /** The loop over the alter rules; the first failing statement records TABLE_ALTER and ends it. */
  method ApplyAlterRules(db: Codb, table: string, rules: seq<AlterRule>, frame: Origin) returns (ok: bool)
    modifies db
    ensures db.Params() == old(db.Params())
    ensures Step(db.State(), ok) == RunRules(old(db.Cfg()), old(db.State()), table, rules, frame)
  {
    ghost var c := db.Cfg();
    ghost var s0 := db.State();
    for i := 0 to |rules|
      invariant db.Cfg() == c
      invariant Step(db.State(), true) == RunRules(c, s0, table, rules[..i], frame)
    {
      assert rules[..i + 1][..i] == rules[..i];
      var done := ApplyRule(db, table, rules[i], frame);
      if !done {
        RunRulesStops(c, s0, table, rules, i + 1, frame);
        return false;
      }
    }
    assert rules[..|rules|] == rules;
    return true;
  }

  /** One alter rule: a rename first asks for the column's definition; a failing statement records TABLE_ALTER. */
  method ApplyRule(db: Codb, table: string, rule: AlterRule, frame: Origin) returns (ok: bool)
    modifies db
    ensures db.Params() == old(db.Params()) && db.Cfg() == old(db.Cfg())
    ensures Step(db.State(), ok) == RuleStep(old(db.Cfg()), old(db.State()), table, rule, frame)
  {
    var stmt: Option<Statement>;
    if rule.RenameField? {
      var shown := MakeQuery(db, Render(ShowColumns(table, rule.target)), Origin(db.enginePath, 565));
      stmt := Some(RenameStatement(EscapeFn(db.Cfg()), table, rule.target, rule.value, FirstRow(shown)));
    } else {
      stmt := RuleStatement(EscapeFn(db.Cfg()), table, rule);
    }
    ok := true;
    if stmt.Some? {
      ok := IssueAlter(db, stmt.value, 601, table, frame);
    }
  }

  /** One ALTER statement; a failure records TABLE_ALTER. */
  method IssueAlter(db: Codb, stmt: Statement, line: int, table: string, frame: Origin) returns (ok: bool)
    modifies db
    ensures db.Params() == old(db.Params())
    ensures Step(db.State(), ok) == AlterStep(old(db.Cfg()), old(db.State()), stmt, line, table, frame)
  {
    ok := Query(db, stmt, Origin(db.enginePath, line));
    if !ok {
      db.AddError(TableAlter, table, db.linkError, frame);
    }
  }

  /**
   * The loop over the field nodes: the names to ADD as plain columns, the
   * multi-lingual names, and $all_fields_info as the name order of first
   * appearance with each name's last definition.
   */
  method ClassifyFields(fields: seq<FieldSpec>, snapshot: seq<string>)
    returns (newFields: seq<string>, multilang: seq<string>, sequence: seq<string>, info: map<string, FieldSpec>)
    ensures newFields == NewPlainFields(fields, snapshot)
    ensures multilang == MultiLingualNames(fields)
    ensures sequence == FieldSequence(fields)
    ensures forall n :: n in info <==> n in sequence
    ensures forall n :: n in info ==> info[n] == DefinitionOf(fields, n)
  {
    newFields, multilang, sequence, info := [], [], [], map[];
    for i := 0 to |fields|
      invariant newFields == NewPlainFields(fields[..i], snapshot)
      invariant multilang == MultiLingualNames(fields[..i])
      invariant sequence == FieldSequence(fields[..i])
      invariant forall n :: n in info <==> n in sequence
      invariant forall n :: n in info ==> info[n] == DefinitionOf(fields[..i], n)
    {
      var field := fields[i];
      ClassifySnoc(fields, i, snapshot);
      assert fields[..i + 1][..i] == fields[..i];
      if field.name !in info {
        sequence := sequence + [field.name];
      }
      info := info[field.name := field];
      if field.name in snapshot || field.multiLingual {
        if field.multiLingual {
          multilang := multilang + [field.name];
        }
      } else {
        newFields := newFields + [field.name];
      }
    }
    assert fields[..|fields|] == fields;
  }

  /** Where a new language column goes, found as the engine finds it (array_search, then the previous name). */
  method FindPosition(name: string, sequence: seq<string>, snapshot: seq<string>) returns (position: string)
    ensures position == Position(name, sequence, snapshot)
  {
    position := "";
    var current := IndexOf(sequence, name);
    if current == 0 {
      position := "FIRST";
    }
    if current != 0 && 0 <= current - 1 < |sequence| {
      if sequence[current - 1] in snapshot {
        position := "AFTER " + sequence[current - 1];
      }
    }
  }

  /** The plain ADDs, until one fails. */
  method AddPlainColumns(db: Codb, table: string, newFields: seq<string>, fields: seq<FieldSpec>, info: map<string, FieldSpec>, frame: Origin) returns (ok: bool)
    requires forall n :: n in newFields ==> n in info && info[n] == DefinitionOf(fields, n)
    modifies db
    ensures db.Params() == old(db.Params())
    ensures Step(db.State(), ok) == RunUntilFail(old(db.Cfg()), old(db.State()), PlainAdds(EscapeFn(old(db.Cfg())), table, newFields, fields), table, frame)
  {
    ghost var c := db.Cfg();
    ghost var s0 := db.State();
    var escape := EscapeFn(db.Cfg());
    for i := 0 to |newFields|
      invariant db.Cfg() == c
      invariant Step(db.State(), true) == RunUntilFail(c, s0, PlainAdds(escape, table, newFields[..i], fields), table, frame)
    {
      ghost var done := PlainAdds(escape, table, newFields[..i], fields);
      var name := newFields[i];
      assert info[name] == DefinitionOf(fields, name) by {
        assert name in newFields;
      }
      var stmt := AddColumn(table, name, BuildFieldOptions(escape, info[name]));
      assert PlainAdd(escape, table, fields, name) == Planned(stmt, 633);
      PlainAddsSnoc(escape, table, newFields, i, fields);
      RunUntilFailSnoc(c, s0, done, Planned(stmt, 633), table, frame);
      ok := IssueAlter(db, stmt, 633, table, frame);
      if !ok {
        PlainAddsUpTo(escape, table, newFields, i + 1, fields);
        RunUntilFailStops(c, s0, done + [Planned(stmt, 633)], PlainAdds(escape, table, newFields, fields), table, frame);
        return;
      }
    }
    assert newFields[..|newFields|] == newFields;
    ok := true;
  }

  /** The missing language columns of one multi-lingual field, until one fails. */
  method AddLangColumnsFor(db: Codb, table: string, name: string, languages: seq<string>, fields: seq<FieldSpec>,
                           snapshot: seq<string>, sequence: seq<string>, options: string, frame: Origin) returns (ok: bool)
    requires sequence == FieldSequence(fields) && options == NewOptions(EscapeFn(db.Cfg()), fields, name)
    modifies db
    ensures db.Params() == old(db.Params())
    ensures Step(db.State(), ok) == RunUntilFail(old(db.Cfg()), old(db.State()), LangAddsFor(EscapeFn(old(db.Cfg())), table, name, languages, fields, snapshot), table, frame)
  {
    ghost var c := db.Cfg();
    ghost var s0 := db.State();
    ghost var escape := EscapeFn(c);
    for k := 0 to |languages|
      invariant db.Cfg() == c
      invariant Step(db.State(), true) == RunUntilFail(c, s0, LangAddsFor(escape, table, name, languages[..k], fields, snapshot), table, frame)
    {
      ghost var done := LangAddsFor(escape, table, name, languages[..k], fields, snapshot);
      var column := name + "_" + languages[k];
      LangAddsForSnoc(escape, table, name, languages, k, fields, snapshot);
      if column !in snapshot {
        var position := FindPosition(name, sequence, snapshot);
        var stmt := AddLangColumn(table, column, options, position);
        assert LangAddsFor(escape, table, name, languages[..k + 1], fields, snapshot) == done + [Planned(stmt, 669)];
        RunUntilFailSnoc(c, s0, done, Planned(stmt, 669), table, frame);
        ok := IssueAlter(db, stmt, 669, table, frame);
        if !ok {
          LangAddsForUpTo(escape, table, name, languages, k + 1, fields, snapshot);
          RunUntilFailStops(c, s0, done + [Planned(stmt, 669)], LangAddsFor(escape, table, name, languages, fields, snapshot), table, frame);
          return;
        }
      } else {
        assert done + [] == done;
      }
    }
    assert languages[..|languages|] == languages;
    ok := true;
  }

  /** The loop over the multi-lingual names, until an ADD fails. */
  method AddLangColumns(db: Codb, table: string, multilang: seq<string>, languages: seq<string>, fields: seq<FieldSpec>,
                        snapshot: seq<string>, sequence: seq<string>, info: map<string, FieldSpec>, frame: Origin) returns (ok: bool)
    requires sequence == FieldSequence(fields)
    requires forall n :: n in multilang ==> n in info && info[n] == DefinitionOf(fields, n)
    modifies db
    ensures db.Params() == old(db.Params())
    ensures Step(db.State(), ok) == RunUntilFail(old(db.Cfg()), old(db.State()), LangAdds(EscapeFn(old(db.Cfg())), table, multilang, languages, fields, snapshot), table, frame)
  {
    ghost var c := db.Cfg();
    ghost var s0 := db.State();
    var escape := EscapeFn(db.Cfg());
    for i := 0 to |multilang|
      invariant db.Cfg() == c
      invariant Step(db.State(), true) == RunUntilFail(c, s0, LangAdds(escape, table, multilang[..i], languages, fields, snapshot), table, frame)
    {
      ghost var done := LangAdds(escape, table, multilang[..i], languages, fields, snapshot);
      var name := multilang[i];
      ghost var next := LangAddsFor(escape, table, name, languages, fields, snapshot);
      assert multilang[..i + 1][..i] == multilang[..i];
      assert LangAdds(escape, table, multilang[..i + 1], languages, fields, snapshot) == done + next;
      RunUntilFailConcat(c, s0, done, next, table, frame);
      ok := AddLangColumnsFor(db, table, name, languages, fields, snapshot, sequence, BuildFieldOptions(escape, info[name]), frame);
      if !ok {
        LangAddsUpTo(escape, table, multilang, i + 1, languages, fields, snapshot);
        RunUntilFailStops(c, s0, done + next, LangAdds(escape, table, multilang, languages, fields, snapshot), table, frame);
        return;
      }
    }
    assert multilang[..|multilang|] == multilang;
    ok := true;
  }

  /** alterTable; the result is None when the table does not exist. */
  method AlterTable(db: Codb, t: TableSpec, languages: seq<string>, frame: Origin) returns (result: Option<bool>)
    modifies db
    ensures db.Params() == old(db.Params())
    ensures AlterOutcome(db.State(), result) == AlterTableSpec(old(db.Cfg()), old(db.State()), t, languages, frame)
  {
    ghost var c := db.Cfg();
    var shown := MakeQuery(db, Render(ShowTables(t.name)), Origin(db.enginePath, 555));
    if !FirstValueHolds(shown) {
      return None;
    }
    var described := MakeQuery(db, Render(Describe(t.name)), Origin(db.enginePath, 558));
    var snapshot := Snapshot(described);
    var ok := ApplyAlterRules(db, t.name, t.alterRules, frame);
    if !ok {
      return Some(false);
    }
    ghost var s1 := db.State();
    var escape := EscapeFn(db.Cfg());
    var newFields, multilang, sequence, info := ClassifyFields(t.fields, snapshot);
    ghost var plain := PlainAdds(escape, t.name, newFields, t.fields);
    ghost var lang := LangAdds(escape, t.name, multilang, languages, t.fields, snapshot);
    RunUntilFailConcat(c, s1, plain, lang, t.name, frame);
    ok := AddPlainColumns(db, t.name, newFields, t.fields, info, frame);
    if !ok {
      return Some(false);
    }
    ok := AddLangColumns(db, t.name, multilang, languages, t.fields, snapshot, sequence, info, frame);
    return Some(ok);
  }

  // ---------------------------------------------------------------------------
  // createTables, alterTables
  // ---------------------------------------------------------------------------

  /** The loop of createTables: every table is attempted, and the result is the conjunction. */
  method CreateAll(db: Codb, tables: seq<TableSpec>, languages: seq<string>) returns (ok: bool)
    modifies db
    ensures db.Params() == old(db.Params())
    ensures Step(db.State(), ok) == RunCreates(old(db.Cfg()), old(db.State()), tables, languages)
  {
    ghost var c := db.Cfg();
    ghost var s0 := db.State();
    ok := true;
    for i := 0 to |tables|
      invariant db.Cfg() == c
      invariant Step(db.State(), ok) == RunCreates(c, s0, tables[..i], languages)
    {
      RunCreatesSnoc(c, s0, tables, i, languages);
      var created := CreateTable(db, tables[i], languages, Origin(db.enginePath, 377));
      ok := ok && created;
    }
    assert tables[..|tables|] == tables;
  }

  /** createTables: the tables are created only when the description names this engine. */
  method CreateTables(db: Codb, d: DatabaseSpec, languages: seq<string>, frame: Origin) returns (ok: bool)
    modifies db
    ensures db.Params() == old(db.Params())
    ensures Step(db.State(), ok) == CreateTablesSpec(old(db.Cfg()), old(db.State()), d, languages, frame)
  {
    if !db.server.connected {
      return false;
    }
    if d.engineType == EngineTag || d.engineType == LegacyTag {
      ok := CreateAll(db, d.tables, languages);
    } else {
      db.AddError(EngineMismatch, d.engineType, "", frame);
      ok := false;
    }
  }

  /** The loop of alterTables: every table is attempted; any result but true sets the failure flag. */
  method AlterAll(db: Codb, tables: seq<TableSpec>, languages: seq<string>) returns (ok: bool)
    modifies db
    ensures db.Params() == old(db.Params())
    ensures Step(db.State(), ok) == RunAlters(old(db.Cfg()), old(db.State()), tables, languages)
  {
    ghost var c := db.Cfg();
    ghost var s0 := db.State();
    var fail := false;
    for i := 0 to |tables|
      invariant db.Cfg() == c
      invariant Step(db.State(), !fail) == RunAlters(c, s0, tables[..i], languages)
    {
      RunAltersSnoc(c, s0, tables, i, languages);
      var altered := AlterTable(db, tables[i], languages, Origin(db.enginePath, 400));
      if altered != Some(true) && !fail {
        fail := true;
      }
    }
    assert tables[..|tables|] == tables;
    ok := !fail;
  }

  /** alterTables: an engine mismatch is recorded, yet the result is true. */
  method AlterTables(db: Codb, d: DatabaseSpec, languages: seq<string>, frame: Origin) returns (ok: bool)
    modifies db
    ensures db.Params() == old(db.Params())
    ensures Step(db.State(), ok) == AlterTablesSpec(old(db.Cfg()), old(db.State()), d, languages, frame)
  {
    if !db.server.connected {
      return false;
    }
    var fail := false;
    if d.engineType == EngineTag || d.engineType == LegacyTag {
      ok := AlterAll(db, d.tables, languages);
      fail := !ok;
    } else {
      db.AddError(EngineMismatch, d.engineType, "", frame);
    }
    ok := !fail;
  }
}
