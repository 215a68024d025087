/**
 * What the MySQLi engine's operations do to the session, as functions of
 * the configuration (link, settings) and the session before the call. The
 * methods in module Engine are proved to agree with these functions, and
 * the properties of the engine are proved about them.
 */
module EngineSpec {
  import opened Common
  import opened Macros
  import opened Errors
  import opened Link
  import opened CodbCore
  import opened Schema
  import opened FieldOptions
  import opened Statements
  import opened Plans

  /** What one makeQuery call leaves: the session, and the result set (None where makeQuery returns false). */
  datatype Outcome = Outcome(state: Session, result: Option<Answer>)

  /** The session after a step and whether the step succeeded. */
  datatype Step = Step(state: Session, ok: bool)

  /** The session after alterTable and what it returns: nothing when the table is absent. */
  datatype AlterOutcome = AlterOutcome(state: Session, result: Option<bool>)

  /** The engine's tag, and the tag with "sqli" replaced by "sql". */
  const EngineTag := "mysqli"
  const LegacyTag := "mysql"

  function EscapeFn(c: Config): string -> string {
    s => c.Escape(s)
  }

  /** The text the server receives for a statement: the statement after macro processing. */
  function Wire(c: Config, text: string): string {
    Rewrite(c.settings.MacroEnv(), text)
  }

  /** r continues s: the statements sent and the errors recorded are only ever appended to. */
  predicate Extends(s: Session, r: Session) {
    s.sent <= r.sent && s.errors <= r.errors
  }

  // ---------------------------------------------------------------------------
  // makeQuery
  // ---------------------------------------------------------------------------

  /**
   * makeQuery. Without a link nothing changes and the result is false.
   * Otherwise the outcome fields are reset, the processed text is sent,
   * affected rows always come from the link, the insert id only from a
   * successful statement that affected rows, and a failure appends one
   * QUERY_FAILED entry naming frame: addError skips makeQuery's own frame and
   * reports where query, getAssoc or getCol was called.
   */
  function MakeQuerySpec(c: Config, s: Session, text: string, frame: Origin): (o: Outcome)
    ensures !c.server.connected ==> o == Outcome(s, None)
    ensures c.server.connected ==>
      var a := c.server.execute(s.sent + [Wire(c, text)]);
      && o.state.sent == s.sent + [Wire(c, text)]
      && o.state.linkError == a.error
      && o.state.affected == a.affected
      && o.state.insertId == (if a.ok && a.affected > 0 then a.insertId else 0)
      && o.state.failed == !a.ok
      && (a.ok ==> o.result == Some(a) && o.state.errors == s.errors)
      && (!a.ok ==> o.result.None? && o.state.errors == s.errors + [Message(QueryFailed, Caller(c.settings.useBacktracing, frame), a.error, "")])
  {
    if !c.server.connected then Outcome(s, None)
    else
      var sent := s.sent + [Wire(c, text)];
      var a := c.server.execute(sent);
      var reset := s.(failed := false, affected := 0, insertId := 0);
      var after := reset.(sent := sent, linkError := a.error, affected := a.affected);
      if a.ok then
        Outcome(after.(insertId := if a.affected > 0 then a.insertId else 0), Some(a))
      else
        Outcome(PushError(c.settings, after, QueryFailed, frame, a.error, ""), None)
  }

  /** The wire texts of a plan, in order. */
  function Wires(c: Config, plan: seq<Planned>): (r: seq<string>)
    ensures |r| == |plan|
    decreases |plan|
  {
    if plan == [] then []
    else Wires(c, plan[..|plan| - 1]) + [Wire(c, Render(plan[|plan| - 1].stmt))]
  }

  // ---------------------------------------------------------------------------
  // Best effort: index statements and inserts
  // ---------------------------------------------------------------------------

  /** One index statement: on failure INDEX_CREATE is recorded with the statement text and nothing stops. */
  function IndexStep(c: Config, s: Session, p: Planned, table: string, frame: Origin): (r: Session)
    ensures Extends(s, r)
    ensures c.server.connected ==> |r.sent| == |s.sent| + 1
  {
    var o := MakeQuerySpec(c, s, Render(p.stmt), c.At(p.line));
    if o.result.Some? then o.state
    else PushError(c.settings, o.state, IndexCreate(Render(p.stmt)), frame, o.state.linkError, table)
  }

  function RunIndexes(c: Config, s: Session, plan: seq<Planned>, table: string, frame: Origin): (r: Session)
    ensures Extends(s, r)
    ensures c.server.connected ==> |r.sent| == |s.sent| + |plan|
    decreases |plan|
  {
    if plan == [] then s
    else IndexStep(c, RunIndexes(c, s, plan[..|plan| - 1], table, frame), plan[|plan| - 1], table, frame)
  }

  lemma RunIndexesSnoc(c: Config, s: Session, done: seq<Planned>, p: Planned, table: string, frame: Origin)
    ensures RunIndexes(c, s, done + [p], table, frame) == IndexStep(c, RunIndexes(c, s, done, table, frame), p, table, frame)
  {
    assert (done + [p])[..|done|] == done;
  }

  lemma RunIndexesOne(c: Config, s: Session, plan: seq<Planned>, table: string, frame: Origin)
    requires |plan| == 1
    ensures RunIndexes(c, s, plan, table, frame) == IndexStep(c, s, plan[0], table, frame)
  {
    assert plan[..0] == [];
  }

  /** One data row: on failure INSERT_DATA is recorded and the next row is still tried. */
  function InsertStep(c: Config, s: Session, p: Planned, table: string, frame: Origin): (r: Session)
    ensures Extends(s, r)
    ensures c.server.connected ==> |r.sent| == |s.sent| + 1
  {
    var o := MakeQuerySpec(c, s, Render(p.stmt), c.At(p.line));
    if o.result.Some? then o.state
    else PushError(c.settings, o.state, InsertData, frame, table, "")
  }

  /** The INSERT of each data row, in order; named rows expand over the available languages. */
  function InsertPlan(c: Config, table: string, rows: seq<DataRow>, multilang: seq<string>, natural: seq<string>): (r: seq<Planned>)
    ensures |r| == |rows|
    ensures forall i :: 0 <= i < |r| ==> r[i] == Planned(RowStatement(EscapeFn(c), table, rows[i], multilang, c.settings.languages, natural), 735)
    decreases |rows|
  {
    if rows == [] then []
    else
      var init := rows[..|rows| - 1];
      var r := InsertPlan(c, table, init, multilang, natural) + [Planned(RowStatement(EscapeFn(c), table, rows[|rows| - 1], multilang, c.settings.languages, natural), 735)];
      assert forall i :: 0 <= i < |init| ==> init[i] == rows[i];
      r
  }

  function RunInserts(c: Config, s: Session, plan: seq<Planned>, table: string, frame: Origin): (r: Session)
    ensures Extends(s, r)
    ensures c.server.connected ==> |r.sent| == |s.sent| + |plan|
    decreases |plan|
  {
    if plan == [] then s
    else InsertStep(c, RunInserts(c, s, plan[..|plan| - 1], table, frame), plan[|plan| - 1], table, frame)
  }

  lemma InsertPlanSnoc(c: Config, table: string, rows: seq<DataRow>, i: int, multilang: seq<string>, natural: seq<string>)
    requires 0 <= i < |rows|
    ensures InsertPlan(c, table, rows[..i + 1], multilang, natural)
      == InsertPlan(c, table, rows[..i], multilang, natural) + [Planned(RowStatement(EscapeFn(c), table, rows[i], multilang, c.settings.languages, natural), 735)]
  {
    assert rows[..i + 1][..i] == rows[..i];
  }

  lemma RunInsertsSnoc(c: Config, s: Session, done: seq<Planned>, p: Planned, table: string, frame: Origin)
    ensures RunInserts(c, s, done + [p], table, frame) == InsertStep(c, RunInserts(c, s, done, table, frame), p, table, frame)
  {
    assert (done + [p])[..|done|] == done;
  }

  /** fillTables, with the natural field order of the table passed in. */
  function FillSpec(c: Config, s: Session, t: TableSpec, multilang: seq<string>, natural: seq<string>, frame: Origin): (r: Session)
    ensures Extends(s, r)
    ensures c.server.connected ==> |r.sent| == |s.sent| + |t.data|
  {
    RunInserts(c, s, InsertPlan(c, t.name, t.data, multilang, natural), t.name, frame)
  }

  // ---------------------------------------------------------------------------
  // Until the first failure: alter rules and ADDs
  // ---------------------------------------------------------------------------

  /** One ALTER statement: on failure TABLE_ALTER is recorded and the step fails. */
  function AlterStep(c: Config, s: Session, stmt: Statement, line: int, table: string, frame: Origin): (r: Step)
    ensures !r.ok ==> |r.state.errors| > 0 && r.state.errors[|r.state.errors| - 1] == Message(TableAlter, Caller(c.settings.useBacktracing, frame), table, r.state.linkError)
  {
    var o := MakeQuerySpec(c, s, Render(stmt), c.At(line));
    if o.result.Some? then Step(o.state, true)
    else Step(PushError(c.settings, o.state, TableAlter, frame, table, o.state.linkError), false)
  }

  /** A plan run until its first failing statement. */
  function RunUntilFail(c: Config, s: Session, plan: seq<Planned>, table: string, frame: Origin): (r: Step)
    decreases |plan|
  {
    if plan == [] then Step(s, true)
    else
      var st := RunUntilFail(c, s, plan[..|plan| - 1], table, frame);
      if !st.ok then st else AlterStep(c, st.state, plan[|plan| - 1].stmt, plan[|plan| - 1].line, table, frame)
  }

  /** One alter rule. A rename first reads the column's structure; an unknown tag issues nothing. */
  function RuleStep(c: Config, s: Session, table: string, rule: AlterRule, frame: Origin): (r: Step)
  {
    match rule
    case RenameField(target, value) =>
      var shown := MakeQuerySpec(c, s, Render(ShowColumns(table, target)), c.At(565));
      AlterStep(c, shown.state, RenameStatement(EscapeFn(c), table, target, value, FirstRow(shown.result)), 601, table, frame)
    case Unknown(_) => Step(s, true)
    case _ => AlterStep(c, s, RuleStatement(EscapeFn(c), table, rule).value, 601, table, frame)
  }

  function RunRules(c: Config, s: Session, table: string, rules: seq<AlterRule>, frame: Origin): (r: Step)
    decreases |rules|
  {
    if rules == [] then Step(s, true)
    else
      var st := RunRules(c, s, table, rules[..|rules| - 1], frame);
      if !st.ok then st else RuleStep(c, st.state, table, rules[|rules| - 1], frame)
  }

  // ---------------------------------------------------------------------------
  // createTable, alterTable, createTables, alterTables
  // ---------------------------------------------------------------------------

  /**
   * createTable. With fields and no such table: CREATE, then (only if it
   * succeeded) every index statement and every data row, result true. No
   * fields: NO_TABLE_FIELDS. Otherwise the table exists: TABLE_EXISTS.
   */
  function CreateTableSpec(c: Config, s: Session, t: TableSpec, languages: seq<string>, frame: Origin): (r: Step)
    ensures Extends(s, r.state)
    ensures r.ok ==> c.server.connected && |t.fields| > 0
  {
    var shown := MakeQuerySpec(c, s, Render(ShowTables(t.name)), c.At(414));
    var present := FirstValueHolds(shown.result);
    if |t.fields| > 0 && !present then BuildTableSpec(c, shown.state, t, languages, frame)
    else if |t.fields| == 0 then
      Step(PushError(c.settings, shown.state, NoTableFields, frame, t.name, ""), false)
    else
      Step(PushError(c.settings, shown.state, TableExists, frame, t.name, ""), false)
  }

  /** The CREATE of an absent table, then (only if it succeeded) its indexes and its data rows. */
  function BuildTableSpec(c: Config, s: Session, t: TableSpec, languages: seq<string>, frame: Origin): (r: Step)
    ensures Extends(s, r.state)
    ensures r.ok ==> c.server.connected
    ensures c.server.connected ==> |r.state.sent| >= |s.sent| + 1
  {
    var created := MakeQuerySpec(c, s, Render(CreateStatement(EscapeFn(c), t, languages)), c.At(449));
    if created.result.None? then
      Step(PushError(c.settings, created.state, TableCreate, frame, t.name, created.state.linkError), false)
    else
      var multilang := MultiLingualNames(t.fields);
      var indexed := RunIndexes(c, created.state, IndexPlan(t.indexes, t.name, multilang, languages), t.name, frame);
      Step(FillSpec(c, indexed, t, multilang, NaturalOrder(t.fields), c.At(537)), true)
  }

  /**
   * alterTable. An absent table returns nothing. Otherwise the columns are
   * read once, the alter rules run until one fails, and then the ADDs run
   * until one fails.
   */
  function AlterTableSpec(c: Config, s: Session, t: TableSpec, languages: seq<string>, frame: Origin): (r: AlterOutcome)
    ensures r.result.Some? ==> c.server.connected
    ensures !c.server.connected ==> r == AlterOutcome(s, None)
  {
    var shown := MakeQuerySpec(c, s, Render(ShowTables(t.name)), c.At(555));
    if !FirstValueHolds(shown.result) then AlterOutcome(shown.state, None)
    else
      var described := MakeQuerySpec(c, shown.state, Render(Describe(t.name)), c.At(558));
      var snapshot := Snapshot(described.result);
      var ruled := RunRules(c, described.state, t.name, t.alterRules, frame);
      if !ruled.ok then AlterOutcome(ruled.state, Some(false))
      else
        var added := RunUntilFail(c, ruled.state, AddPlan(EscapeFn(c), t.name, t.fields, snapshot, languages), t.name, frame);
        AlterOutcome(added.state, Some(added.ok))
  }

  predicate EngineMatches(engineType: string) {
    engineType == EngineTag || engineType == LegacyTag
  }

  /** Every table is attempted; the result is true only when every createTable returned true. */
  function RunCreates(c: Config, s: Session, tables: seq<TableSpec>, languages: seq<string>): (r: Step)
    ensures Extends(s, r.state)
    decreases |tables|
  {
    if tables == [] then Step(s, true)
    else
      var st := RunCreates(c, s, tables[..|tables| - 1], languages);
      var r := CreateTableSpec(c, st.state, tables[|tables| - 1], languages, c.At(377));
      Step(r.state, st.ok && r.ok)
  }

  function CreateTablesSpec(c: Config, s: Session, d: DatabaseSpec, languages: seq<string>, frame: Origin): (r: Step)
    ensures Extends(s, r.state)
    ensures r.ok ==> c.server.connected && EngineMatches(d.engineType)
  {
    if !c.server.connected then Step(s, false)
    else if EngineMatches(d.engineType) then RunCreates(c, s, d.tables, languages)
    else Step(PushError(c.settings, s, EngineMismatch, frame, d.engineType, ""), false)
  }

  /** Every table is attempted; the result is false once any alterTable returned anything but true. */
  function RunAlters(c: Config, s: Session, tables: seq<TableSpec>, languages: seq<string>): (r: Step)
    decreases |tables|
  {
    if tables == [] then Step(s, true)
    else
      var st := RunAlters(c, s, tables[..|tables| - 1], languages);
      var r := AlterTableSpec(c, st.state, tables[|tables| - 1], languages, c.At(400));
      Step(r.state, st.ok && r.result == Some(true))
  }

  function AlterTablesSpec(c: Config, s: Session, d: DatabaseSpec, languages: seq<string>, frame: Origin): (r: Step)
    ensures !c.server.connected ==> r == Step(s, false)
  {
    if !c.server.connected then Step(s, false)
    else if EngineMatches(d.engineType) then RunAlters(c, s, d.tables, languages)
    else Step(PushError(c.settings, s, EngineMismatch, frame, d.engineType, ""), true)
  }

  // ---------------------------------------------------------------------------
  // How runs compose
  // ---------------------------------------------------------------------------

  lemma {:induction false} RunIndexesConcat(c: Config, s: Session, p: seq<Planned>, q: seq<Planned>, table: string, frame: Origin)
    ensures RunIndexes(c, s, p + q, table, frame) == RunIndexes(c, RunIndexes(c, s, p, table, frame), q, table, frame)
    decreases |q|
  {
    if q == [] {
      assert p + q == p;
    } else {
      var init := q[..|q| - 1];
      assert (p + q)[..|p + q| - 1] == p + init;
      RunIndexesConcat(c, s, p, init, table, frame);
    }
  }

  /** Once a prefix of a plan has failed, the rest of the plan is not issued. */
  lemma {:induction false} RunUntilFailStops(c: Config, s: Session, p: seq<Planned>, plan: seq<Planned>, table: string, frame: Origin)
    requires p <= plan && !RunUntilFail(c, s, p, table, frame).ok
    ensures RunUntilFail(c, s, plan, table, frame) == RunUntilFail(c, s, p, table, frame)
    decreases |plan|
  {
    if |p| < |plan| {
      var init := plan[..|plan| - 1];
      assert p <= init;
      RunUntilFailStops(c, s, p, init, table, frame);
    } else {
      assert p == plan;
    }
  }

  /** Once a rule has failed, the later rules are not applied. */
  lemma {:induction false} RunRulesStops(c: Config, s: Session, table: string, rules: seq<AlterRule>, k: nat, frame: Origin)
    requires k <= |rules| && !RunRules(c, s, table, rules[..k], frame).ok
    ensures RunRules(c, s, table, rules, frame) == RunRules(c, s, table, rules[..k], frame)
    decreases |rules|
  {
    if k < |rules| {
      var init := rules[..|rules| - 1];
      assert init[..k] == rules[..k];
      RunRulesStops(c, s, table, init, k, frame);
    } else {
      assert rules[..k] == rules;
    }
  }

  /** Running one more statement of a plan. */
  lemma RunUntilFailSnoc(c: Config, s: Session, done: seq<Planned>, p: Planned, table: string, frame: Origin)
    requires RunUntilFail(c, s, done, table, frame).ok
    ensures RunUntilFail(c, s, done + [p], table, frame) == AlterStep(c, RunUntilFail(c, s, done, table, frame).state, p.stmt, p.line, table, frame)
  {
    assert (done + [p])[..|done|] == done;
  }

  lemma {:induction false} RunUntilFailConcat(c: Config, s: Session, p: seq<Planned>, q: seq<Planned>, table: string, frame: Origin)
    ensures RunUntilFail(c, s, p + q, table, frame) ==
      var st := RunUntilFail(c, s, p, table, frame);
      if !st.ok then st else RunUntilFail(c, st.state, q, table, frame)
    decreases |q|
  {
    if q == [] {
      assert p + q == p;
    } else {
      var init := q[..|q| - 1];
      assert (p + q)[..|p + q| - 1] == p + init;
      RunUntilFailConcat(c, s, p, init, table, frame);
    }
  }

  lemma RunCreatesSnoc(c: Config, s: Session, tables: seq<TableSpec>, i: nat, languages: seq<string>)
    requires i < |tables|
    ensures RunCreates(c, s, tables[..i + 1], languages) ==
      var st := RunCreates(c, s, tables[..i], languages);
      var r := CreateTableSpec(c, st.state, tables[i], languages, c.At(377));
      Step(r.state, st.ok && r.ok)
  {
    assert tables[..i + 1][..i] == tables[..i];
  }

  lemma RunAltersSnoc(c: Config, s: Session, tables: seq<TableSpec>, i: nat, languages: seq<string>)
    requires i < |tables|
    ensures RunAlters(c, s, tables[..i + 1], languages) ==
      var st := RunAlters(c, s, tables[..i], languages);
      var r := AlterTableSpec(c, st.state, tables[i], languages, c.At(400));
      Step(r.state, st.ok && r.result == Some(true))
  {
    assert tables[..i + 1][..i] == tables[..i];
  }
}
