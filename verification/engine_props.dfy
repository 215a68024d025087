/**
 * Properties of the MySQLi engine's table operations, proved about the
 * functions of module EngineSpec that the methods of module Engine
 * implement.
 */
module EngineProps {
  import opened Common
  import opened Errors
  import opened Link
  import opened CodbCore
  import opened Schema
  import opened FieldOptions
  import opened Statements
  import opened Plans
  import opened EngineSpec

  // ---------------------------------------------------------------------------
  // createTable: the column list
  // ---------------------------------------------------------------------------

  /** The columns of a field list are the columns of its parts, in description order. */
  lemma {:induction false} ColumnDefsConcat(escape: string -> string, a: seq<FieldSpec>, b: seq<FieldSpec>, languages: seq<string>)
    ensures ColumnDefs(escape, a + b, languages) == ColumnDefs(escape, a, languages) + ColumnDefs(escape, b, languages)
    decreases |b|
  {
    if b == [] {
      assert a + b == a;
    } else {
      var init := b[..|b| - 1];
      var z := FieldColumns(escape, b[|b| - 1], languages);
      assert (a + b)[..|a + b| - 1] == a + init;
      assert (a + b)[|a + b| - 1] == b[|b| - 1];
      assert ColumnDefs(escape, a + b, languages) == ColumnDefs(escape, a + init, languages) + z;
      ColumnDefsConcat(escape, a, init, languages);
      Associative(ColumnDefs(escape, a, languages), ColumnDefs(escape, init, languages), z);
    }
  }

  lemma Associative<T>(x: seq<T>, y: seq<T>, z: seq<T>)
    ensures (x + y) + z == x + (y + z)
  {
  }

  /**
   * A plain field yields the one column "`name` options", a multi-lingual
   * field one column "`name_lang` options" per language, in language
   * order, each with the options of buildFieldOptions.
   */
  lemma FieldColumnsShape(escape: string -> string, f: FieldSpec, languages: seq<string>)
    ensures var r := ColumnDefs(escape, [f], languages);
      && (!f.multiLingual ==> r == ["`" + f.name + "` " + BuildFieldOptions(escape, f)])
      && (f.multiLingual ==> |r| == |languages| && forall i :: 0 <= i < |r| ==>
            r[i] == "`" + f.name + "_" + languages[i] + "` " + BuildFieldOptions(escape, f))
  {
    assert [f][..0] == [];
    assert ColumnDefs(escape, [f], languages) == FieldColumns(escape, f, languages);
    if f.multiLingual {
      var options := BuildFieldOptions(escape, f);
      var r := LangColumns(f.name, options, languages);
      assert forall i :: 0 <= i < |r| ==> r[i] == "`" + f.name + "_" + languages[i] + "` " + options;
    }
  }

  // ---------------------------------------------------------------------------
  // Best effort runs: every statement is sent
  // ---------------------------------------------------------------------------

  /** Every index statement is sent, in order, whatever fails; errors are only appended. */
  lemma {:induction false} RunIndexesSendsAll(c: Config, s: Session, plan: seq<Planned>, table: string, frame: Origin)
    requires c.server.connected
    ensures var r := RunIndexes(c, s, plan, table, frame);
      r.sent == s.sent + Wires(c, plan) && s.errors <= r.errors
    decreases |plan|
  {
    if plan != [] {
      var init := plan[..|plan| - 1];
      RunIndexesSendsAll(c, s, init, table, frame);
      assert Wires(c, plan) == Wires(c, init) + [Wire(c, Render(plan[|plan| - 1].stmt))];
    }
  }

  /** Every data row's INSERT is sent, in order, whatever fails; errors are only appended. */
  lemma {:induction false} RunInsertsSendsAll(c: Config, s: Session, plan: seq<Planned>, table: string, frame: Origin)
    requires c.server.connected
    ensures var r := RunInserts(c, s, plan, table, frame);
      r.sent == s.sent + Wires(c, plan) && s.errors <= r.errors
    decreases |plan|
  {
    if plan != [] {
      var init := plan[..|plan| - 1];
      RunInsertsSendsAll(c, s, init, table, frame);
      assert Wires(c, plan) == Wires(c, init) + [Wire(c, Render(plan[|plan| - 1].stmt))];
    }
  }

  /** A failed index statement leaves QUERY_FAILED and then INDEX_CREATE naming the statement text. */
  lemma IndexFailureRecorded(c: Config, s: Session, p: Planned, table: string, frame: Origin)
    requires c.server.connected
    ensures var o := MakeQuerySpec(c, s, Render(p.stmt), c.At(p.line));
      var r := IndexStep(c, s, p, table, frame);
      o.result.None? ==> r.errors == s.errors + [
        Message(QueryFailed, Caller(c.settings.useBacktracing, c.At(p.line)), o.state.linkError, ""),
        Message(IndexCreate(Render(p.stmt)), Caller(c.settings.useBacktracing, frame), o.state.linkError, table)]
  {
  }

  /**
   * A data row's INSERT that fails leaves QUERY_FAILED and then INSERT_DATA
   * naming the table; one that succeeds records nothing.
   */
  lemma InsertFailureRecorded(c: Config, s: Session, p: Planned, table: string, frame: Origin)
    requires c.server.connected
    ensures var o := MakeQuerySpec(c, s, Render(p.stmt), c.At(p.line));
      var r := InsertStep(c, s, p, table, frame);
      && (o.result.Some? ==> r.errors == s.errors)
      && (o.result.None? ==> r.errors == s.errors + [
            Message(QueryFailed, Caller(c.settings.useBacktracing, c.At(p.line)), o.state.linkError, ""),
            Message(InsertData, Caller(c.settings.useBacktracing, frame), table, "")])
  {
  }

  // ---------------------------------------------------------------------------
  // createTable
  // ---------------------------------------------------------------------------

  /**
   * createTable without fields reports NO_TABLE_FIELDS and sends nothing
   * after SHOW TABLES, whether or not the table exists.
   */
  lemma CreateTableNoFields(c: Config, s: Session, t: TableSpec, languages: seq<string>, frame: Origin)
    requires |t.fields| == 0
    ensures var shown := MakeQuerySpec(c, s, Render(ShowTables(t.name)), c.At(414));
      var r := CreateTableSpec(c, s, t, languages, frame);
      && !r.ok && r.state.sent == shown.state.sent
      && r.state.errors == shown.state.errors + [Message(NoTableFields, Caller(c.settings.useBacktracing, frame), t.name, "")]
  {
  }

  /** createTable of a table that exists reports TABLE_EXISTS and sends nothing after SHOW TABLES. */
  lemma CreateTableExisting(c: Config, s: Session, t: TableSpec, languages: seq<string>, frame: Origin)
    requires |t.fields| > 0 && FirstValueHolds(MakeQuerySpec(c, s, Render(ShowTables(t.name)), c.At(414)).result)
    ensures var shown := MakeQuerySpec(c, s, Render(ShowTables(t.name)), c.At(414));
      var r := CreateTableSpec(c, s, t, languages, frame);
      && !r.ok && r.state.sent == shown.state.sent
      && r.state.errors == shown.state.errors + [Message(TableExists, Caller(c.settings.useBacktracing, frame), t.name, "")]
  {
  }

  /**
   * After SHOW TABLES, createTable sends CREATE TABLE. When it fails:
   * TABLE_CREATE with the link's error, result false, and no index or
   * insert is sent. When it succeeds: result true, and every index
   * statement and then every data row's INSERT is sent, failures or not.
   */
  lemma CreateTableAfterCreate(c: Config, s: Session, t: TableSpec, languages: seq<string>, frame: Origin)
    requires c.server.connected && |t.fields| > 0
    requires !FirstValueHolds(MakeQuerySpec(c, s, Render(ShowTables(t.name)), c.At(414)).result)
    ensures var shown := MakeQuerySpec(c, s, Render(ShowTables(t.name)), c.At(414));
      var created := MakeQuerySpec(c, shown.state, Render(CreateStatement(EscapeFn(c), t, languages)), c.At(449));
      var multilang := MultiLingualNames(t.fields);
      var r := CreateTableSpec(c, s, t, languages, frame);
      && created.state.sent == s.sent + [Wire(c, Render(ShowTables(t.name))), Wire(c, Render(CreateStatement(EscapeFn(c), t, languages)))]
      && (created.result.None? ==>
            && !r.ok && r.state.sent == created.state.sent
            && r.state.errors == created.state.errors + [Message(TableCreate, Caller(c.settings.useBacktracing, frame), t.name, created.state.linkError)])
      && (created.result.Some? ==>
            && r.ok
            && r.state.sent == created.state.sent
                 + Wires(c, IndexPlan(t.indexes, t.name, multilang, languages))
                 + Wires(c, InsertPlan(c, t.name, t.data, multilang, NaturalOrder(t.fields))))
  {
    var shown := MakeQuerySpec(c, s, Render(ShowTables(t.name)), c.At(414));
    var created := MakeQuerySpec(c, shown.state, Render(CreateStatement(EscapeFn(c), t, languages)), c.At(449));
    var multilang := MultiLingualNames(t.fields);
    if created.result.Some? {
      var plan := IndexPlan(t.indexes, t.name, multilang, languages);
      RunIndexesSendsAll(c, created.state, plan, t.name, frame);
      var indexed := RunIndexes(c, created.state, plan, t.name, frame);
      RunInsertsSendsAll(c, indexed, InsertPlan(c, t.name, t.data, multilang, NaturalOrder(t.fields)), t.name, c.At(537));
    }
  }

  /** createTable returns true exactly when the fields are there, the table is not, and CREATE TABLE succeeded. */
  lemma CreateTableResult(c: Config, s: Session, t: TableSpec, languages: seq<string>, frame: Origin)
    ensures var shown := MakeQuerySpec(c, s, Render(ShowTables(t.name)), c.At(414));
      var created := MakeQuerySpec(c, shown.state, Render(CreateStatement(EscapeFn(c), t, languages)), c.At(449));
      CreateTableSpec(c, s, t, languages, frame).ok <==> |t.fields| > 0 && !FirstValueHolds(shown.result) && created.result.Some?
  {
  }

  // ---------------------------------------------------------------------------
  // alterTable
  // ---------------------------------------------------------------------------

  /** alterTable returns nothing exactly when SHOW TABLES finds no table, and then sends nothing more. */
  lemma AlterTableAbsent(c: Config, s: Session, t: TableSpec, languages: seq<string>, frame: Origin)
    ensures var shown := MakeQuerySpec(c, s, Render(ShowTables(t.name)), c.At(555));
      var r := AlterTableSpec(c, s, t, languages, frame);
      && (r.result.None? <==> !FirstValueHolds(shown.result))
      && (r.result.None? ==> r.state == shown.state)
  {
  }

  /** The statements sent by a run are the first n of the plan, all of them exactly when the run succeeded. */
  predicate SentPrefix(c: Config, s: Session, plan: seq<Planned>, r: Step, n: int) {
    0 <= n <= |plan| && r.state.sent == s.sent + Wires(c, plan[..n]) && (r.ok ==> n == |plan|) && (!r.ok ==> n > 0)
  }

  /**
   * A plan run until its first failure sends a prefix of the plan: all of
   * it when every statement succeeded, and otherwise up to and including
   * the failing statement.
   */
  lemma {:induction false} RunUntilFailSendsPrefix(c: Config, s: Session, plan: seq<Planned>, table: string, frame: Origin)
    requires c.server.connected
    ensures exists n :: SentPrefix(c, s, plan, RunUntilFail(c, s, plan, table, frame), n)
    decreases |plan|
  {
    var r := RunUntilFail(c, s, plan, table, frame);
    if plan == [] {
      assert plan[..0] == [];
      assert SentPrefix(c, s, plan, r, 0);
    } else {
      var init := plan[..|plan| - 1];
      RunUntilFailSendsPrefix(c, s, init, table, frame);
      var st := RunUntilFail(c, s, init, table, frame);
      var n :| SentPrefix(c, s, init, st, n);
      if !st.ok {
        StoppedPrefix(c, s, plan, table, frame, n);
      } else {
        SendsPrefixNext(c, s, plan, table, frame);
      }
    }
  }

  /** The step case of RunUntilFailSendsPrefix once an earlier statement failed. */
  lemma StoppedPrefix(c: Config, s: Session, plan: seq<Planned>, table: string, frame: Origin, n: int)
    requires |plan| > 0
    requires var st := RunUntilFail(c, s, plan[..|plan| - 1], table, frame);
      !st.ok && SentPrefix(c, s, plan[..|plan| - 1], st, n)
    ensures SentPrefix(c, s, plan, RunUntilFail(c, s, plan, table, frame), n)
  {
    assert plan[..|plan| - 1][..n] == plan[..n];
  }

  /** The step case of RunUntilFailSendsPrefix when the earlier statements all succeeded. */
  lemma SendsPrefixNext(c: Config, s: Session, plan: seq<Planned>, table: string, frame: Origin)
    requires c.server.connected && |plan| > 0
    requires var st := RunUntilFail(c, s, plan[..|plan| - 1], table, frame);
      st.ok && SentPrefix(c, s, plan[..|plan| - 1], st, |plan| - 1)
    ensures SentPrefix(c, s, plan, RunUntilFail(c, s, plan, table, frame), |plan|)
  {
    var init := plan[..|plan| - 1];
    var last := plan[|plan| - 1];
    var st := RunUntilFail(c, s, init, table, frame);
    var r := AlterStep(c, st.state, last.stmt, last.line, table, frame);
    var w := Wire(c, Render(last.stmt));
    assert RunUntilFail(c, s, plan, table, frame) == r;
    AlterStepSends(c, st.state, last.stmt, last.line, table, frame);
    assert init[..|plan| - 1] == init;
    assert plan[..|plan|] == plan;
    AppendOne(s.sent, Wires(c, init), w, st.state.sent, r.state.sent, Wires(c, plan));
  }

  lemma AppendOne(a: seq<string>, b: seq<string>, x: string, before: seq<string>, after: seq<string>, bx: seq<string>)
    requires before == a + b && after == before + [x] && bx == b + [x]
    ensures after == a + bx
  {
  }

  /** When a plan run until its first failure fails, the last error is the TABLE_ALTER of the failing statement. */
  lemma {:induction false} RunUntilFailFailure(c: Config, s: Session, plan: seq<Planned>, table: string, frame: Origin)
    ensures var r := RunUntilFail(c, s, plan, table, frame);
      !r.ok ==> (|r.state.errors| > 0
        && r.state.errors[|r.state.errors| - 1] == Message(TableAlter, Caller(c.settings.useBacktracing, frame), table, r.state.linkError))
    decreases |plan|
  {
    if plan != [] {
      RunUntilFailFailure(c, s, plan[..|plan| - 1], table, frame);
    }
  }

  lemma AlterStepSends(c: Config, s: Session, stmt: Statement, line: int, table: string, frame: Origin)
    requires c.server.connected
    ensures AlterStep(c, s, stmt, line, table, frame).state.sent == s.sent + [Wire(c, Render(stmt))]
  {
  }

  /** When the alter rules fail, the last error is the TABLE_ALTER of the failing rule. */
  lemma {:induction false} RunRulesFailure(c: Config, s: Session, table: string, rules: seq<AlterRule>, frame: Origin)
    ensures var r := RunRules(c, s, table, rules, frame);
      !r.ok ==> (|r.state.errors| > 0
        && r.state.errors[|r.state.errors| - 1] == Message(TableAlter, Caller(c.settings.useBacktracing, frame), table, r.state.linkError))
    decreases |rules|
  {
    if rules != [] {
      RunRulesFailure(c, s, table, rules[..|rules| - 1], frame);
    }
  }

  /**
   * alterTable: nothing when the table is missing; on an existing table,
   * true exactly when every alter rule and every ADD of the plan
   * succeeded, and false otherwise.
   */
  lemma AlterTableOutcome(c: Config, s: Session, t: TableSpec, languages: seq<string>, frame: Origin)
    requires c.server.connected
    ensures var shown := MakeQuerySpec(c, s, Render(ShowTables(t.name)), c.At(555));
      var described := MakeQuerySpec(c, shown.state, Render(Describe(t.name)), c.At(558));
      var ruled := RunRules(c, described.state, t.name, t.alterRules, frame);
      var plan := AddPlan(EscapeFn(c), t.name, t.fields, Snapshot(described.result), languages);
      var r := AlterTableSpec(c, s, t, languages, frame);
      && (FirstValueHolds(shown.result) ==> r.result == Some(ruled.ok && RunUntilFail(c, ruled.state, plan, t.name, frame).ok))
      && (!FirstValueHolds(shown.result) ==> r.result.None?)
  {
  }

  /** alterTable's false carries TABLE_ALTER as the last error. */
  lemma AlterTableFailure(c: Config, s: Session, t: TableSpec, languages: seq<string>, frame: Origin)
    ensures var r := AlterTableSpec(c, s, t, languages, frame);
      r.result == Some(false) ==>
        && |r.state.errors| > 0
        && r.state.errors[|r.state.errors| - 1] == Message(TableAlter, Caller(c.settings.useBacktracing, frame), t.name, r.state.linkError)
  {
    var shown := MakeQuerySpec(c, s, Render(ShowTables(t.name)), c.At(555));
    var described := MakeQuerySpec(c, shown.state, Render(Describe(t.name)), c.At(558));
    var ruled := RunRules(c, described.state, t.name, t.alterRules, frame);
    var plan := AddPlan(EscapeFn(c), t.name, t.fields, Snapshot(described.result), languages);
    AlterTableCases(c, s, t, languages, frame);
    if FirstValueHolds(shown.result) {
      if !ruled.ok {
        RunRulesFailure(c, described.state, t.name, t.alterRules, frame);
      } else {
        RunUntilFailFailure(c, ruled.state, plan, t.name, frame);
      }
    }
  }

  /**
   * The three ways alterTable ends, as AlterTableSpec's definition gives
   * them. An unfolding aid for AlterTableFailure, not a further property.
   */
  lemma AlterTableCases(c: Config, s: Session, t: TableSpec, languages: seq<string>, frame: Origin)
    ensures var shown := MakeQuerySpec(c, s, Render(ShowTables(t.name)), c.At(555));
      var described := MakeQuerySpec(c, shown.state, Render(Describe(t.name)), c.At(558));
      var ruled := RunRules(c, described.state, t.name, t.alterRules, frame);
      var plan := AddPlan(EscapeFn(c), t.name, t.fields, Snapshot(described.result), languages);
      var added := RunUntilFail(c, ruled.state, plan, t.name, frame);
      AlterTableSpec(c, s, t, languages, frame) ==
        if !FirstValueHolds(shown.result) then AlterOutcome(shown.state, None)
        else if !ruled.ok then AlterOutcome(ruled.state, Some(false))
        else AlterOutcome(added.state, Some(added.ok))
  {
  }

  /** alterTable's true means every alter rule succeeded and every ADD of the plan was sent. */
  lemma AlterTableSendsPlan(c: Config, s: Session, t: TableSpec, languages: seq<string>, frame: Origin)
    requires c.server.connected
    ensures var described := MakeQuerySpec(c, MakeQuerySpec(c, s, Render(ShowTables(t.name)), c.At(555)).state, Render(Describe(t.name)), c.At(558));
      var ruled := RunRules(c, described.state, t.name, t.alterRules, frame);
      var plan := AddPlan(EscapeFn(c), t.name, t.fields, Snapshot(described.result), languages);
      AlterTableSpec(c, s, t, languages, frame).result == Some(true) ==>
        ruled.ok && SentPrefix(c, ruled.state, plan, RunUntilFail(c, ruled.state, plan, t.name, frame), |plan|)
  {
    var shown := MakeQuerySpec(c, s, Render(ShowTables(t.name)), c.At(555));
    var described := MakeQuerySpec(c, shown.state, Render(Describe(t.name)), c.At(558));
    var ruled := RunRules(c, described.state, t.name, t.alterRules, frame);
    var plan := AddPlan(EscapeFn(c), t.name, t.fields, Snapshot(described.result), languages);
    if FirstValueHolds(shown.result) && ruled.ok {
      RunUntilFailSendsPrefix(c, ruled.state, plan, t.name, frame);
    }
  }

  /** alterTable only appends: to the statements sent and to the error stack. */
  lemma AlterTableExtends(c: Config, s: Session, t: TableSpec, languages: seq<string>, frame: Origin)
    ensures Extends(s, AlterTableSpec(c, s, t, languages, frame).state)
  {
    var shown := MakeQuerySpec(c, s, Render(ShowTables(t.name)), c.At(555));
    var described := MakeQuerySpec(c, shown.state, Render(Describe(t.name)), c.At(558));
    var ruled := RunRules(c, described.state, t.name, t.alterRules, frame);
    var plan := AddPlan(EscapeFn(c), t.name, t.fields, Snapshot(described.result), languages);
    var r := AlterTableSpec(c, s, t, languages, frame);
    QueryExtends(c, s, Render(ShowTables(t.name)), c.At(555));
    if FirstValueHolds(shown.result) {
      QueryExtends(c, shown.state, Render(Describe(t.name)), c.At(558));
      RunRulesExtends(c, described.state, t.name, t.alterRules, frame);
      ExtendsTrans(s, shown.state, described.state);
      ExtendsTrans(s, described.state, ruled.state);
      if ruled.ok {
        var added := RunUntilFail(c, ruled.state, plan, t.name, frame);
        RunUntilFailExtends(c, ruled.state, plan, t.name, frame);
        ExtendsTrans(s, ruled.state, added.state);
        assert r.state == added.state;
      } else {
        assert r.state == ruled.state;
      }
    }
  }

  lemma QueryExtends(c: Config, s: Session, text: string, frame: Origin)
    ensures Extends(s, MakeQuerySpec(c, s, text, frame).state)
  {
  }

  lemma ExtendsTrans(a: Session, b: Session, d: Session)
    requires Extends(a, b) && Extends(b, d)
    ensures Extends(a, d)
  {
  }

  lemma {:induction false} RunRulesExtends(c: Config, s: Session, table: string, rules: seq<AlterRule>, frame: Origin)
    ensures Extends(s, RunRules(c, s, table, rules, frame).state)
    decreases |rules|
  {
    if rules != [] {
      var st := RunRules(c, s, table, rules[..|rules| - 1], frame);
      RunRulesExtends(c, s, table, rules[..|rules| - 1], frame);
      if st.ok {
        RuleStepExtends(c, st.state, table, rules[|rules| - 1], frame);
        ExtendsTrans(s, st.state, RuleStep(c, st.state, table, rules[|rules| - 1], frame).state);
      }
    }
  }

  lemma RuleStepExtends(c: Config, s: Session, table: string, rule: AlterRule, frame: Origin)
    ensures Extends(s, RuleStep(c, s, table, rule, frame).state)
  {
    if rule.RenameField? {
      var shown := MakeQuerySpec(c, s, Render(ShowColumns(table, rule.target)), c.At(565));
      QueryExtends(c, s, Render(ShowColumns(table, rule.target)), c.At(565));
      AlterStepExtends(c, shown.state, RenameStatement(EscapeFn(c), table, rule.target, rule.value, FirstRow(shown.result)), 601, table, frame);
      ExtendsTrans(s, shown.state, RuleStep(c, s, table, rule, frame).state);
    } else if !rule.Unknown? {
      AlterStepExtends(c, s, RuleStatement(EscapeFn(c), table, rule).value, 601, table, frame);
    }
  }

  lemma AlterStepExtends(c: Config, s: Session, stmt: Statement, line: int, table: string, frame: Origin)
    ensures Extends(s, AlterStep(c, s, stmt, line, table, frame).state)
  {
  }

  lemma {:induction false} RunUntilFailExtends(c: Config, s: Session, plan: seq<Planned>, table: string, frame: Origin)
    ensures Extends(s, RunUntilFail(c, s, plan, table, frame).state)
    decreases |plan|
  {
    if plan != [] {
      RunUntilFailExtends(c, s, plan[..|plan| - 1], table, frame);
    }
  }

  /** alterTables only appends: to the statements sent and to the error stack. */
  lemma {:induction false} RunAltersExtends(c: Config, s: Session, tables: seq<TableSpec>, languages: seq<string>)
    ensures Extends(s, RunAlters(c, s, tables, languages).state)
    decreases |tables|
  {
    if tables != [] {
      var st := RunAlters(c, s, tables[..|tables| - 1], languages);
      RunAltersExtends(c, s, tables[..|tables| - 1], languages);
      AlterTableExtends(c, st.state, tables[|tables| - 1], languages, c.At(400));
    }
  }

  // ---------------------------------------------------------------------------
  // alterTable: the ADD plan
  // ---------------------------------------------------------------------------

  /** The column is name_lang for one of the languages. */
  predicate LanguageColumn(column: string, name: string, languages: seq<string>) {
    exists i :: 0 <= i < |languages| && column == name + "_" + languages[i]
  }

  /**
   * Each ADD of one field's language columns names a column of the form
   * name_lang that the snapshot lacks, with the field's options and the
   * field's position.
   */
  lemma {:induction false} LangAddsForShape(escape: string -> string, table: string, name: string, languages: seq<string>, fields: seq<FieldSpec>, snapshot: seq<string>)
    ensures forall p :: p in LangAddsFor(escape, table, name, languages, fields, snapshot) ==>
      && p.line == 669 && p.stmt.AddLangColumn? && p.stmt.table == table
      && p.stmt.column !in snapshot
      && p.stmt.options == NewOptions(escape, fields, name)
      && p.stmt.position == Position(name, FieldSequence(fields), snapshot)
      && LanguageColumn(p.stmt.column, name, languages)
    decreases |languages|
  {
    if languages != [] {
      var init := languages[..|languages| - 1];
      LangAddsForShape(escape, table, name, init, fields, snapshot);
      var before := LangAddsFor(escape, table, name, init, fields, snapshot);
      var plan := LangAddsFor(escape, table, name, languages, fields, snapshot);
      forall p | p in plan
        ensures LanguageColumn(p.stmt.column, name, languages)
      {
        if p in before {
          var i :| 0 <= i < |init| && p.stmt.column == name + "_" + init[i];
          assert languages[i] == init[i];
        } else {
          assert p.stmt.column == name + "_" + languages[|languages| - 1];
        }
      }
    }
  }

  /** Every language whose column the snapshot lacks gets an ADD. */
  lemma {:induction false} LangAddsForCover(escape: string -> string, table: string, name: string, languages: seq<string>, fields: seq<FieldSpec>, snapshot: seq<string>)
    ensures forall i :: 0 <= i < |languages| && name + "_" + languages[i] !in snapshot ==>
      exists p :: p in LangAddsFor(escape, table, name, languages, fields, snapshot) && p.stmt.AddLangColumn? && p.stmt.column == name + "_" + languages[i]
    decreases |languages|
  {
    if languages != [] {
      var init := languages[..|languages| - 1];
      LangAddsForCover(escape, table, name, init, fields, snapshot);
      var before := LangAddsFor(escape, table, name, init, fields, snapshot);
      var plan := LangAddsFor(escape, table, name, languages, fields, snapshot);
      forall i | 0 <= i < |languages| && name + "_" + languages[i] !in snapshot
        ensures exists p :: p in plan && p.stmt.AddLangColumn? && p.stmt.column == name + "_" + languages[i]
      {
        if i < |init| {
          assert languages[i] == init[i];
          var p :| p in before && p.stmt.AddLangColumn? && p.stmt.column == name + "_" + init[i];
          assert p in plan;
        } else {
          var p := plan[|plan| - 1];
          assert p.stmt.AddLangColumn? && p.stmt.column == name + "_" + languages[i];
        }
      }
    }
  }

  /** An ADD of a plain column the snapshot lacks, issued from line 633. */
  predicate PlainAddOf(p: Planned, snapshot: seq<string>) {
    p.line == 633 && p.stmt.AddColumn? && p.stmt.column !in snapshot
  }

  /** An ADD of a language column the snapshot lacks, issued from line 669. */
  predicate LangAddOf(p: Planned, snapshot: seq<string>) {
    p.line == 669 && p.stmt.AddLangColumn? && p.stmt.column !in snapshot
  }

  /** Every language-column ADD of several fields is an ADD ... position of a missing column. */
  lemma {:induction false} LangAddsAreLangColumns(escape: string -> string, table: string, names: seq<string>, languages: seq<string>, fields: seq<FieldSpec>, snapshot: seq<string>)
    ensures forall p :: p in LangAdds(escape, table, names, languages, fields, snapshot) ==> LangAddOf(p, snapshot)
    decreases |names|
  {
    if names != [] {
      LangAddsAreLangColumns(escape, table, names[..|names| - 1], languages, fields, snapshot);
      LangAddsForShape(escape, table, names[|names| - 1], languages, fields, snapshot);
    }
  }

  /** Every plain ADD adds a column the snapshot lacks. */
  lemma {:induction false} PlainAddsAreNew(escape: string -> string, table: string, fields: seq<FieldSpec>, snapshot: seq<string>)
    ensures var plain := PlainAdds(escape, table, NewPlainFields(fields, snapshot), fields);
      forall i :: 0 <= i < |plain| ==> PlainAddOf(plain[i], snapshot)
  {
    var names := NewPlainFields(fields, snapshot);
    var plain := PlainAdds(escape, table, names, fields);
    forall i | 0 <= i < |plain|
      ensures PlainAddOf(plain[i], snapshot)
    {
      PlainAddsAt(escape, table, names, fields, i);
      assert names[i] in names;
    }
  }

  /**
   * The ADD plan sends the plain fields first, one ADD each, for exactly
   * the new non-multi-lingual fields, and only then the language columns.
   */
  lemma {:induction false} AddPlanPlainFirst(escape: string -> string, table: string, fields: seq<FieldSpec>, snapshot: seq<string>, languages: seq<string>)
    ensures var plan := AddPlan(escape, table, fields, snapshot, languages);
      var k := |NewPlainFields(fields, snapshot)|;
      && k <= |plan|
      && (forall i :: 0 <= i < k ==> PlainAddOf(plan[i], snapshot))
      && (forall i :: k <= i < |plan| ==> LangAddOf(plan[i], snapshot))
  {
    AddPlanPlainPart(escape, table, fields, snapshot, languages);
    AddPlanLangPart(escape, table, fields, snapshot, languages);
  }

  /** The first ADDs of the plan are the plain ones. */
  lemma {:induction false} AddPlanPlainPart(escape: string -> string, table: string, fields: seq<FieldSpec>, snapshot: seq<string>, languages: seq<string>)
    ensures var plan := AddPlan(escape, table, fields, snapshot, languages);
      forall i :: 0 <= i < |NewPlainFields(fields, snapshot)| ==> PlainAddOf(plan[i], snapshot)
  {
    var names := NewPlainFields(fields, snapshot);
    var plain := PlainAdds(escape, table, names, fields);
    var plan := AddPlan(escape, table, fields, snapshot, languages);
    forall i | 0 <= i < |names|
      ensures PlainAddOf(plan[i], snapshot)
    {
      PlainAddsAt(escape, table, names, fields, i);
      assert names[i] in names;
      assert plan[i] == plain[i];
    }
  }

  /** The ADDs after the plain ones are language-column ADDs. */
  lemma {:induction false} AddPlanLangPart(escape: string -> string, table: string, fields: seq<FieldSpec>, snapshot: seq<string>, languages: seq<string>)
    ensures var plan := AddPlan(escape, table, fields, snapshot, languages);
      forall i :: |NewPlainFields(fields, snapshot)| <= i < |plan| ==> LangAddOf(plan[i], snapshot)
  {
    var plain := PlainAdds(escape, table, NewPlainFields(fields, snapshot), fields);
    var lang := LangAdds(escape, table, MultiLingualNames(fields), languages, fields, snapshot);
    LangAddsAreLangColumns(escape, table, MultiLingualNames(fields), languages, fields, snapshot);
    SuffixOfConcat(plain, lang, AddPlan(escape, table, fields, snapshot, languages), snapshot);
  }

  lemma {:induction false} SuffixOfConcat(plain: seq<Planned>, lang: seq<Planned>, plan: seq<Planned>, snapshot: seq<string>)
    requires plan == plain + lang
    requires forall p :: p in lang ==> LangAddOf(p, snapshot)
    ensures forall i :: |plain| <= i < |plan| ==> LangAddOf(plan[i], snapshot)
  {
    forall i | |plain| <= i < |plan|
      ensures LangAddOf(plan[i], snapshot)
    {
      assert plan[i] == lang[i - |plain|];
    }
  }

  /** $all_fields_info starts with the first field in description order. */
  lemma {:induction false} FieldSequenceHead(fields: seq<FieldSpec>)
    requires |fields| > 0
    ensures |FieldSequence(fields)| > 0 && FieldSequence(fields)[0] == fields[0].name
    decreases |fields|
  {
    var init := fields[..|fields| - 1];
    if |init| > 0 {
      FieldSequenceHead(init);
      assert init[0] == fields[0];
    }
  }

  /** The new language columns of the first field in description order are all added FIRST. */
  lemma FirstFieldColumnsGoFirst(escape: string -> string, table: string, fields: seq<FieldSpec>, snapshot: seq<string>, languages: seq<string>)
    requires |fields| > 0
    ensures forall p :: p in LangAddsFor(escape, table, fields[0].name, languages, fields, snapshot) ==>
      p.stmt.AddLangColumn? && p.stmt.position == "FIRST"
  {
    FieldSequenceHead(fields);
    LangAddsForShape(escape, table, fields[0].name, languages, fields, snapshot);
  }

  // ---------------------------------------------------------------------------
  // fillTables and the natural field order
  // ---------------------------------------------------------------------------

  /**
   * As written, $table_fields_natural_order is never assigned, so it is
   * empty: a positional row with values becomes an INSERT whose column
   * list is empty, while its VALUES list is not.
   */
  lemma PositionalRowAsWritten(escape: string -> string, table: string, row: DataRow, multilang: seq<string>, languages: seq<string>)
    requires !IsNamed(row) && |row.values| > 0
    ensures var st := RowStatement(escape, table, row, multilang, languages, []);
      st.InsertValues? && st.names == "" && |st.values| == |row.values| > 0
  {
  }

  /**
   * With the table's field order, the i-th value of a positional row goes
   * to the column of the i-th field.
   */
  lemma PositionalRowNamesFields(escape: string -> string, table: string, row: DataRow, multilang: seq<string>, languages: seq<string>, fields: seq<FieldSpec>)
    requires !IsNamed(row) && |row.values| <= |fields|
    ensures var st := RowStatement(escape, table, row, multilang, languages, NaturalOrder(fields));
      exists names: seq<string> ::
        && |names| == |row.values|
        && (forall i :: 0 <= i < |names| ==> names[i] == fields[i].name)
        && st == InsertValues(table, Join(", ", names), Literals(escape, row.values))
  {
    var names := Take(NaturalOrder(fields), |row.values|);
    assert forall i :: 0 <= i < |names| ==> names[i] == fields[i].name;
  }

  // ---------------------------------------------------------------------------
  // createTables and alterTables
  // ---------------------------------------------------------------------------

  /** Without a link both gates fail and change nothing; on an engine mismatch both record ENGINE_MISMATCH, and alterTables still returns true. */
  lemma EngineGate(c: Config, s: Session, d: DatabaseSpec, languages: seq<string>, frame: Origin)
    ensures var created := CreateTablesSpec(c, s, d, languages, frame);
      var altered := AlterTablesSpec(c, s, d, languages, frame);
      var mismatch := s.errors + [Message(EngineMismatch, Caller(c.settings.useBacktracing, frame), d.engineType, "")];
      && (!c.server.connected ==> created == Step(s, false) && altered == Step(s, false))
      && (c.server.connected && !EngineMatches(d.engineType) ==>
            && !created.ok && created.state.errors == mismatch && created.state.sent == s.sent
            && altered.ok && altered.state.errors == mismatch && altered.state.sent == s.sent)
  {
  }

  /** Whether the i-th createTable of createTables returned true. */
  predicate CreatedAt(c: Config, s: Session, tables: seq<TableSpec>, languages: seq<string>, i: int)
    requires 0 <= i < |tables|
  {
    CreateTableSpec(c, RunCreates(c, s, tables[..i], languages).state, tables[i], languages, c.At(377)).ok
  }

  lemma CreatedAtPrefix(c: Config, s: Session, tables: seq<TableSpec>, languages: seq<string>, i: int, k: int)
    requires 0 <= i < k <= |tables|
    ensures CreatedAt(c, s, tables[..k], languages, i) == CreatedAt(c, s, tables, languages, i)
  {
    assert tables[..k][..i] == tables[..i];
  }

  /** createTables attempts every table; it returns true exactly when every createTable returned true. */
  lemma {:induction false} RunCreatesAll(c: Config, s: Session, tables: seq<TableSpec>, languages: seq<string>)
    ensures RunCreates(c, s, tables, languages).ok <==> forall i :: 0 <= i < |tables| ==> CreatedAt(c, s, tables, languages, i)
    decreases |tables|
  {
    if tables != [] {
      var k := |tables| - 1;
      var init := tables[..k];
      RunCreatesAll(c, s, init, languages);
      forall i | 0 <= i < k
        ensures CreatedAt(c, s, init, languages, i) == CreatedAt(c, s, tables, languages, i)
      {
        CreatedAtPrefix(c, s, tables, languages, i, k);
      }
      var last := CreatedAt(c, s, tables, languages, k);
      assert RunCreates(c, s, tables, languages).ok == (RunCreates(c, s, init, languages).ok && last);
      if RunCreates(c, s, tables, languages).ok {
        forall i | 0 <= i < |tables|
          ensures CreatedAt(c, s, tables, languages, i)
        {
          if i < k {
            assert CreatedAt(c, s, init, languages, i);
          } else {
            assert i == k;
          }
        }
      } else if last {
        var i :| 0 <= i < k && !CreatedAt(c, s, init, languages, i);
        assert !CreatedAt(c, s, tables, languages, i);
      }
    }
  }

  /** Whether the i-th alterTable of alterTables returned true. */
  predicate AlteredAt(c: Config, s: Session, tables: seq<TableSpec>, languages: seq<string>, i: int)
    requires 0 <= i < |tables|
  {
    AlterTableSpec(c, RunAlters(c, s, tables[..i], languages).state, tables[i], languages, c.At(400)).result == Some(true)
  }

  lemma AlteredAtPrefix(c: Config, s: Session, tables: seq<TableSpec>, languages: seq<string>, i: int, k: int)
    requires 0 <= i < k <= |tables|
    ensures AlteredAt(c, s, tables[..k], languages, i) == AlteredAt(c, s, tables, languages, i)
  {
    assert tables[..k][..i] == tables[..i];
  }

  /** alterTables attempts every table; it returns true exactly when every alterTable returned true. */
  lemma {:induction false} RunAltersAll(c: Config, s: Session, tables: seq<TableSpec>, languages: seq<string>)
    ensures RunAlters(c, s, tables, languages).ok <==> forall i :: 0 <= i < |tables| ==> AlteredAt(c, s, tables, languages, i)
    decreases |tables|
  {
    if tables != [] {
      var k := |tables| - 1;
      var init := tables[..k];
      RunAltersAll(c, s, init, languages);
      forall i | 0 <= i < k
        ensures AlteredAt(c, s, init, languages, i) == AlteredAt(c, s, tables, languages, i)
      {
        AlteredAtPrefix(c, s, tables, languages, i, k);
      }
      var last := AlteredAt(c, s, tables, languages, k);
      assert RunAlters(c, s, tables, languages).ok == (RunAlters(c, s, init, languages).ok && last);
      if RunAlters(c, s, tables, languages).ok {
        forall i | 0 <= i < |tables|
          ensures AlteredAt(c, s, tables, languages, i)
        {
          if i < k {
            assert AlteredAt(c, s, init, languages, i);
          } else {
            assert i == k;
          }
        }
      } else if last {
        var i :| 0 <= i < k && !AlteredAt(c, s, init, languages, i);
        assert !AlteredAt(c, s, tables, languages, i);
      }
    }
  }
}
