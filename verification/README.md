# codb: a Dafny model of the MySQLi engine and the codb base class

codb is a small PHP database layer. A `codb` instance keeps the connection
settings (database name, table prefix, the available languages and the
current one, whether backtraces are used), an error stack of formatted
messages and the outcome of the last statement. Every statement goes
through `processMacros`, which expands three macros:
- `codb_lang_all(x)` becomes the list of x's per-language columns;
- `codb_lang(x)` becomes x's column for the current language;
- `codb_table(x)` becomes the qualified, prefixed table name.

The MySQLi engine (`mysqli.engine.php`) adds the following:
- `makeQuery` resets the outcome, sends the processed text and records QUERY_FAILED on failure;
- `limit` builds the LIMIT clause;
- `getAssoc` and `getCol` shape result rows into PHP arrays;
- the schema synchronisation driven by an XML description:
  - `createTables` and `alterTables` check the engine tag;
  - `createTable` issues CREATE TABLE, then best-effort indexes, then the data rows (`fillTables`);
  - `alterTable` applies alter rules and ADDs the missing columns, stopping at the first failure.

How the model is laid out:

- `Common`: PHP values, `empty()`, `intval()`, and integer printing and parsing.
- `Macros`: the macro passes as functions over strings.
- `MacroText`: queries spelled from plain text and tokens, and what the two passes do to them.
- `Errors`: the message templates, `strip_tags`, and the caller location addError prints.
- `Link`: the database link is a value.
  - The server is a function from every statement text sent so far to an answer: success, affected rows, insert id, error text and rows.
  - So an answer may depend on the whole history.
- `CodbCore`: the class `Codb`.
  - Its fields are the PHP object's fields.
  - Its methods are `addError`, `getError`, `getAllErrors`, `isError`, the guarded setters and `processMacros`, with `int()` beside it.
- `Schema`, `FieldOptions`, `Statements`, `Plans`:
  - the XML description as datatypes;
  - `buildFieldOptions`;
  - the statements each operation derives from a description, as pure functions.
- `EngineSpec`: what each engine operation does to the session, as functions of the configuration and the session before the call.
- `Engine`: the engine's methods, imperative over a `Codb`, each proved equal to its `EngineSpec` function.
- `EngineProps`: the properties of the engine, proved about those functions.
- `Paging`: `limit`.
- `PhpArrays`: PHP's ordered arrays, as far as the fetch loops use them.
- `Fetch`: `getAssoc` and `getCol`.

## Model

| member | source | states |
|---|---|---|
| CodbCore.Codb.AddError | codb.class.php:208-219 | raises the failure flag and appends exactly one message at the caller's location; earlier messages are unchanged; getError then returns that message |
| CodbCore.Codb.IsError | codb.class.php:288-290 | the session's failure flag; with a link, Engine.MakeQuery leaves it true exactly when its statement failed, and without one leaves it as it was |
| CodbCore.Codb.GetError | codb.class.php:303-315 | returns a value exactly when the stack is non-empty: the last message, or in plain mode strip_tags of the last message, which holds no tag |
| CodbCore.Codb.GetAllErrors | codb.class.php:318-332 | returns false for an empty stack, otherwise the messages joined by the glue in order; plain mode rewrites every stored message to its stripped form (after which none has a tag) and leaves tag-free messages as they were |
| CodbCore.Codb.SetLanguages | codb.class.php:274-278 | only a non-empty array replaces the language list; nothing else changes |
| CodbCore.Codb.SetCurrentLanguage | codb.class.php:281-285 | an empty() language ("" or "0") leaves the current language in place; any other becomes current |
| CodbCore.Codb.SetBacktraceState | codb.class.php:227-236 | a boolean sets the flag and records nothing; any other value leaves the flag and records one error quoting the value |
| CodbCore.Codb.SetDBPrefix | codb.class.php:239-250 | corrected setter: a non-empty string becomes the prefix; a non-empty non-string records an error; an empty value changes nothing |
| CodbCore.PrefixAfterAsWritten | codb.class.php:239-243 | as written, a non-empty string prefix leaves the prefix "" (the undefined variable); other values leave it as it was |
| CodbCore.PrefixAsWrittenLosesPrefix | codb.class.php:242 | setting "wp_" as written does not give the prefix "wp_" |
| CodbCore.Codb.LangList | codb.class.php:358-364 | the list for one field is every language's column in order, the current language's followed by its aliased copy |
| CodbCore.Codb.ProcessMacros | codb.class.php:335-377 | the loop over the codb_lang_all matches and the languages gives exactly the two-pass rewrite Macros.Rewrite |
| CodbCore.IntCast | codb.class.php:390-404 | the result is the string '0' exactly when intval is 0, and otherwise the non-zero intval; it never prints as "" |
| CodbCore.IntCastReadsBack | codb.class.php:390-404 | intval of the printed result is intval of the argument |
| CodbCore.IntCastIdempotent | codb.class.php:390-404 | int(int(v)) == int(v) |
| CodbCore.Codb.constructor | codb.class.php:66-87 | a fresh instance: default settings (backtraces on, no prefix, no languages), an empty stack, zero counters, nothing sent |
| Errors.StubFileLostAsWritten | codb.class.php:211-218 | as written, with backtracing off a message's location reads "<strong> line 0</strong>": entry [1] of the stub does not exist, so no file is named |
| Errors.StubFileNamed | codb.class.php:211-218 | corrected, with backtracing off a message's location reads "<strong>unknown file line 0</strong>": the stub's file, and its "unknown line" as %d prints it |
| Errors.StripTags | codb.class.php:310 | the result has no tag left |
| Errors.StripTagsKeepsPlain | codb.class.php:323 | text without tags passes strip_tags unchanged |
| Errors.StripTagsIdempotent | codb.class.php:323 | stripping twice equals stripping once, so a second plain getAllErrors changes nothing |
| Macros.MatchAt | codb.class.php:343-355 | a token opened at the start of the text has a non-empty argument of word characters (and '-' for codb_table) and ends at ')' |
| Macros.Rewrite | codb.class.php:336-377 | text holding none of the three macro openings is returned unchanged; MacroText.RewritePieces states what a text with tokens becomes |
| Macros.RewriteWithoutParen | codb.class.php:336-377 | text without '(' is returned unchanged |
| Macros.RewriteTable | codb.class.php:342-373 | codb_table(x) becomes \`db\`.\`prefix x\` |
| Macros.RewriteLang | codb.class.php:337-373 | codb_lang(x) becomes \`x_current\`, or \`x\` when no current language is set (for a current language without '(') |
| Macros.RewriteLangAll | codb.class.php:354-368 | codb_lang_all(x) becomes the comma-separated columns of x in language order, the current language's column followed by its alias (for languages without '(') |
| Macros.LangAllMatchesAbsent | codb.class.php:354 | without the codb_lang_all opening the first pass finds nothing |
| Macros.LangAllNoLanguages | codb.class.php:357-368 | with no languages, codb_lang_all(x) becomes the empty text |
| Macros.LangItemsCount | codb.class.php:359-364 | each language contributes one column, and the current language a second, aliased one |
| Macros.LangItemsAppend | codb.class.php:359-364 | one more language appends exactly that language's columns |
| Macros.ReplaceTokensAbsent | codb.class.php:373 | without its opening text, a single-macro replacement changes nothing |
| MacroText.RewritePieces | codb.class.php:336-377 | a query of plain text and any number of codb_table, codb_lang and codb_lang_all tokens becomes the same text with every token replaced where it stands (for languages, and a current language, without '(', and for plain text in which no token can start: it holds no macro opening, and each '(' right after 'g', 'e' or 'l' stands at least 9, 10 or 13 characters into its plain piece) |
| MacroText.RewriteIn | codb.class.php:336-377 | one token between two texts of plain text in which no token can start: it holds no macro opening, and each '(' right after 'g', 'e' or 'l' stands at least 9, 10 or 13 characters into its plain piece is replaced in place and the texts are kept |
| MacroText.RewriteTableIn | codb.class.php:344-373 | codb_table(x) between two such texts becomes \`db\`.\`prefix x\` and the text around it is kept |
| MacroText.RewriteLangIn | codb.class.php:343-373 | codb_lang(x) between two such texts becomes \`x_current\` and the text around it is kept |
| MacroText.RewriteLangAllIn | codb.class.php:354-369 | codb_lang_all(x) between two such texts becomes x's column list and the text around it is kept |
| MacroText.FirstPassPieces | codb.class.php:352-370 | the first pass replaces every codb_lang_all token by its column list where it stands, leaves no codb_lang_all token, and keeps every other piece |
| MacroText.FirstPassFields | codb.class.php:354-357 | the first pass runs one str_replace per preg_match_all match, in order; without the opening there is none |
| MacroText.MatchesSpell | codb.class.php:355 | preg_match_all finds exactly the codb_lang_all tokens' arguments, left to right |
| MacroText.StrReplaceSpell | codb.class.php:368 | str_replace of one codb_lang_all token replaces every token with that argument and nothing else |
| MacroText.ReplaceLangAllSpell | codb.class.php:357-369 | the str_replace loop over the matches gives the pieces with those tokens replaced |
| MacroText.SubstAllShape | codb.class.php:357-369 | after the loop, a codb_lang_all token is left only when its argument was not matched; the expected text is unchanged |
| MacroText.LangAllFieldsCover | codb.class.php:355 | every codb_lang_all token's argument is among the matches |
| MacroText.LangPass | codb.class.php:343-373 | the codb_lang replacement turns each codb_lang token into its column and copies everything else |
| MacroText.TablePass | codb.class.php:344-373 | after it, the codb_table replacement turns each codb_table token into its qualified name and copies everything else |
| MacroText.ReplaceTokensToken | codb.class.php:373 | a token at the start is replaced whole, whatever follows it |
| MacroText.TokenFollowed | codb.class.php:343-344 | a token is matched up to the ')' after its argument, whatever follows |
| MacroText.ReplaceTokensSkip | codb.class.php:373 | preg_replace copies text in which no token starts |
| MacroText.StrReplaceSkip | codb.class.php:368 | str_replace copies text in which the searched text does not start |
| MacroText.StrReplaceAbsent | codb.class.php:368 | str_replace leaves a text without the searched text unchanged |
| MacroText.LangAllMatchesSkip | codb.class.php:355 | preg_match_all finds nothing in text in which no codb_lang_all token starts |
| MacroText.NoneStartsBefore | codb.class.php:343-355 | no token of a kind starts in a text holding none of its openings when every '(' of the text after it stands far enough in: the opening's '(' would fall there too early for the character before it |
| MacroText.TokenMisses | codb.class.php:343-355 | a token holds no opening of another kind, and its own '(' stands far enough in |
| MacroText.ArgumentMissesLangAll | codb.class.php:355 | a codb_lang_all token starts with its opening and holds no second one after its first character |
| MacroText.PieceMisses | codb.class.php:343-355 | a piece holds no opening of another kind and keeps every '(' far enough in; a token is at least 12 characters long |
| MacroText.SpellReach | codb.class.php:343-355 | in a spelled query every '(' stands far enough in |
| MacroText.OtherArgument | codb.class.php:368 | a codb_lang_all token is not found at the start of one with another argument |
| MacroText.ShortSpellIsPlain | codb.class.php:336 | a query of at most one character holds no token, so the empty() check returning it unchanged agrees with the expected text |
| Engine.MakeQuery | engine/mysqli.engine.php:52-86 | session and result equal EngineSpec.MakeQuerySpec for the frame of makeQuery's caller's caller; with a link, isError is then true exactly when the result is false |
| EngineSpec.MakeQuerySpec | engine/mysqli.engine.php:52-86 | without a link nothing changes and the result is false; otherwise the processed text is sent, affected rows come from the link, the insert id only from a success with affected rows, and a failure records exactly one QUERY_FAILED naming the link's error at the location of the call to query, getAssoc or getCol (addError skips makeQuery's own frame, codb.class.php:213-216) |
| Engine.Query | engine/mysqli.engine.php:116-119 | true exactly when makeQuery returned a result; the session is makeQuery's, a failure naming query's caller |
| Paging.Limit | engine/mysqli.engine.php:122-137 | empty exactly when intval(offset) is negative |
| Paging.LimitReadsBack | engine/mysqli.engine.php:122-137 | the clause starts "LIMIT "; the offset reads back from the text after it; for a positive row count it reads back after ", ", and otherwise only the offset's digits follow |
| Fetch.FetchCount | engine/mysqli.engine.php:148 | the fetch loop takes the rows up to the first row without columns |
| Fetch.ShapeAssoc | engine/mysqli.engine.php:143-189 | the loop with its search flags builds AssocOf of the fetched rows |
| Fetch.GetAssoc | engine/mysqli.engine.php:140-196 | makeQuery's session, a failure naming getAssoc's caller; false on failure, else ShapeAssoc's array |
| Fetch.AssocUnkeyed | engine/mysqli.engine.php:158-188 | without the primary key in the first row, the values of the rows are listed in order under 0, 1, 2, ... |
| Fetch.AssocKeyedLastWins | engine/mysqli.engine.php:182-184 | keyed without grouping: keys are distinct; a key is present exactly when some row has it (a missing column counts as ""), and it holds the value of the last such row |
| Fetch.AssocGroupsList | engine/mysqli.engine.php:173-180 | grouping without a child key: each primary key's group lists, in order, the values of the rows with that key |
| Fetch.AssocGroupsByChild | engine/mysqli.engine.php:164-177 | grouping with the child key in the first row: under each primary key, each child key holds the value of the last row with both keys |
| Fetch.SearchKeys | engine/mysqli.engine.php:158-168 | each key is looked for once, while neither found nor stopped, and only when given (the child key only when grouping); looking stops the search whatever it finds |
| Fetch.StoreRow | engine/mysqli.engine.php:170-188 | storing one more row extends the flat or grouped array of the rows before it by that row |
| Fetch.AssocOfFetched | engine/mysqli.engine.php:143-191 | the result is decided by the first fetched row: grouped when it has the primary key and grouping is asked for, flat otherwise |
| Fetch.ShapeCol | engine/mysqli.engine.php:202-234 | the loop builds the corrected ColRun of the fetched rows |
| Fetch.GetCol | engine/mysqli.engine.php:199-239 | makeQuery's session, a failure naming getCol's caller; false on failure, else ShapeCol's array |
| Fetch.ColRunFlags | engine/mysqli.engine.php:209-217 | each search flag is set exactly when some row so far has the column: it is searched again on every row until found |
| Fetch.ColUnkeyed | engine/mysqli.engine.php:219-228 | while the primary key has not been seen, the values (the return field once seen, else the first column) are listed in order under 0, 1, 2, ... |
| Fetch.ColKeyedFromFirst | engine/mysqli.engine.php:229-231 | with the primary key in the first row, every row's value is assigned under that row's key, in order |
| Fetch.ColSingleColumnKeyed | engine/mysqli.engine.php:219-231 | corrected: a one-column result keyed by that column maps each id to itself |
| Fetch.ColAsWrittenCollapses | engine/mysqli.engine.php:219-231 | as written, the same result collapses to one entry under "" holding the last row's value |
| Fetch.DescribeSnapshot | engine/mysqli.engine.php:558 | getCol(DESCRIBE, 'Field', 'Field') with distinct names lists each name under itself, in order; so alterTable's column snapshot is that list |
| PhpArrays.SetSpec | engine/mysqli.engine.php:183 | $a[k] = v stores v under k, keeps other keys' values, keeps keys distinct and in place, and grows the array only for a new key |
| PhpArrays.PushSpec | engine/mysqli.engine.php:187 | $a[] = v stores v under a fresh integer key and keeps every other value |
| PhpArrays.AssignDistinctKeys | engine/mysqli.engine.php:230 | assigning pairs in order keeps the array's keys distinct |
| PhpArrays.AssignHas | engine/mysqli.engine.php:230 | assigning pairs in order: a key is present exactly when some pair names it |
| PhpArrays.AssignLastWins | engine/mysqli.engine.php:230 | assigning pairs in order: a present key holds the value of the last pair naming it |
| PhpArrays.PushListOf | engine/mysqli.engine.php:227 | appending to a list of values lists one more value |
| PhpArrays.AssignDistinct | engine/mysqli.engine.php:230 | assigning under already distinct keys builds exactly those entries |
| FieldOptions.LengthClause | engine/mysqli.engine.php:314-316 | "( " + L + " )" exactly when a length L is given, else "" |
| FieldOptions.FixedSlots | engine/mysqli.engine.php:300-359 | eleven slots in fixed order, each slot's full text: the type; "( L )"; DEFAULT 'escaped value'; CHARACTER SET c; COLLATE c; PRIMARY KEY; SIGNED, else UNSIGNED, else ""; ZEROFILL; BINARY; NULL when the null flag is set, else NOT NULL; AUTO_INCREMENT; each optional slot "" when not given |
| FieldOptions.OptionSlots | engine/mysqli.engine.php:361-363 | the comment slot is appended only when a comment is given |
| FieldOptions.NullClausePlace | engine/mysqli.engine.php:339-365 | every definition has its null clause after the nine slots before it, followed by the auto-increment and comment slots |
| Plans.ColumnDefs | engine/mysqli.engine.php:424-445 | the CREATE columns, field after field, a multi-lingual field giving one column per language |
| Plans.LangColumns | engine/mysqli.engine.php:436-438 | one column per language, in order, all with the same options |
| Plans.MultiLingualNames | engine/mysqli.engine.php:433-434 | the names of the multi-lingual fields, in order |
| Plans.NaturalOrder | engine/mysqli.engine.php:425-428 | the field names, in order |
| Plans.IndexKind | engine/mysqli.engine.php:463 | "INDEX" for <index>, else the tag followed by " INDEX" |
| Plans.NodePlan | engine/mysqli.engine.php:465-531 | a multi-lingual single field gets one index per language; any other node gets one combined index unless its own field attribute is multi-lingual |
| Plans.SingleLangPlan | engine/mysqli.engine.php:501-515 | one CREATE per language, named name_lang on column field_lang |
| Plans.LangIndexColumns | engine/mysqli.engine.php:481-484 | a group member that is multi-lingual contributes one column per language |
| Plans.ValueAssignments | engine/mysqli.engine.php:706-715 | a named multi-lingual value gives one assignment per available language, all with the same value |
| Plans.Literals | engine/mysqli.engine.php:718 | a positional row's values, each quoted and escaped, in order |
| Plans.RuleStatement | engine/mysqli.engine.php:583-598 | delete-field, alter-field and drop-index each issue a statement; an unknown tag, and only it, issues nothing |
| Plans.NewPlainFields | engine/mysqli.engine.php:613-627 | exactly the fields neither in the snapshot nor multi-lingual, in order |
| Plans.FieldSequence | engine/mysqli.engine.php:613-644 | each field name once, in order of first appearance |
| Plans.DefinitionOf | engine/mysqli.engine.php:616-631 | a name's options come from its last definition |
| Plans.Position | engine/mysqli.engine.php:650-665 | FIRST exactly when the field comes first in the name order; at its first occurrence k > 0, AFTER the field at k-1 exactly when that field is in the snapshot, else no position; no position for a name not in the order |
| Engine.ColumnList | engine/mysqli.engine.php:422-445 | the loop gives ColumnDefs, MultiLingualNames and NaturalOrder |
| Engine.GroupIndexColumns | engine/mysqli.engine.php:474-489 | the loop gives the group's columns |
| Engine.CreateIndexes | engine/mysqli.engine.php:457-534 | the loops issue IndexPlan through the best-effort index step |
| Engine.IssueIndex | engine/mysqli.engine.php:523-530 | one index statement; a failure records INDEX_CREATE with the statement and nothing stops |
| Engine.RowInsert | engine/mysqli.engine.php:691-733 | the loop over a row's values builds RowStatement: named when the first value is named |
| Engine.FillTables | engine/mysqli.engine.php:686-740 | the loop issues every row's INSERT, recording INSERT_DATA for each failure |
| Engine.CreateTable | engine/mysqli.engine.php:413-549 | session and result equal EngineSpec.CreateTableSpec, which passes the table's field order to fillTables (corrected; see Findings) |
| Engine.ApplyAlterRules | engine/mysqli.engine.php:560-609 | the rules run until one fails, which records TABLE_ALTER |
| Engine.ApplyRule | engine/mysqli.engine.php:563-607 | one rule: a rename first reads the column's definition; unknown rules send nothing; a failing statement records TABLE_ALTER |
| Engine.IssueAlter | engine/mysqli.engine.php:600-606 | one ALTER statement is sent; its failure records TABLE_ALTER with the link's error |
| Engine.ClassifyFields | engine/mysqli.engine.php:611-627 | the new plain fields, the multi-lingual names, and the name order with each name's last definition |
| Engine.FindPosition | engine/mysqli.engine.php:650-665 | the position as Plans.Position gives it |
| Engine.AddPlainColumns | engine/mysqli.engine.php:629-640 | the plain ADDs run until one fails |
| Engine.AddLangColumns | engine/mysqli.engine.php:642-677 | the language ADDs run until one fails |
| Engine.AlterTable | engine/mysqli.engine.php:551-682 | session and result equal EngineSpec.AlterTableSpec |
| Engine.CreateTables | engine/mysqli.engine.php:369-387 | session and result equal EngineSpec.CreateTablesSpec |
| Engine.AlterTables | engine/mysqli.engine.php:390-410 | session and result equal EngineSpec.AlterTablesSpec |
| Engine.AppendLangColumns | engine/mysqli.engine.php:436-438 | the columns so far followed by one column per language, in order |
| Engine.BuildTable | engine/mysqli.engine.php:448-537 | the CREATE is sent; its failure records TABLE_CREATE and stops; otherwise the indexes are issued and the table is filled, with the table's field order passed to fillTables (corrected; see Findings) |
| Engine.SectionIndexes | engine/mysqli.engine.php:461-532 | the nodes of one index section issue NodesPlan, best effort |
| Engine.NodeIndexes | engine/mysqli.engine.php:466-530 | one index node issues NodePlan, best effort |
| Engine.SingleLangIndexes | engine/mysqli.engine.php:501-515 | a multi-lingual single-field index issues one CREATE per language, best effort |
| Engine.AppendLangAssignments | engine/mysqli.engine.php:706-715 | the assignments so far followed by one assignment per language, all with the value |
| Engine.IssueInsert | engine/mysqli.engine.php:733-735 | one INSERT is sent; its failure records INSERT_DATA and nothing stops |
| Engine.AddLangColumnsFor | engine/mysqli.engine.php:646-675 | the ADDs of one multi-lingual field's missing language columns run until one fails |
| Engine.CreateAll | engine/mysqli.engine.php:376-379 | every table is created in order, each attempted even after a failure; the result is true exactly when all succeeded |
| Engine.AlterAll | engine/mysqli.engine.php:399-403 | every table is altered in order, each attempted even after a failure; the result is true exactly when all succeeded |
| EngineProps.EngineGate | engine/mysqli.engine.php:369-410 | without a link both gates return false and change nothing; on an engine mismatch both record ENGINE_MISMATCH, createTables returns false and alterTables returns true |
| EngineProps.RunCreatesAll | engine/mysqli.engine.php:374-381 | createTables attempts every table and returns true exactly when every createTable did |
| EngineProps.RunAltersAll | engine/mysqli.engine.php:395-409 | alterTables attempts every table and returns true exactly when every alterTable returned true |
| EngineProps.ColumnDefsConcat | engine/mysqli.engine.php:424-445 | the columns of a field list are those of its parts, in order |
| EngineProps.FieldColumnsShape | engine/mysqli.engine.php:431-442 | a plain field gives one column with buildFieldOptions; a multi-lingual field gives one name_lang column per language, in order |
| EngineProps.CreateTableNoFields | engine/mysqli.engine.php:539-541 | no fields: NO_TABLE_FIELDS, false, and nothing sent after SHOW TABLES |
| EngineProps.CreateTableExisting | engine/mysqli.engine.php:543-545 | an existing table: TABLE_EXISTS, false, and nothing sent after SHOW TABLES |
| EngineProps.CreateTableAfterCreate | engine/mysqli.engine.php:447-537 | a failed CREATE records TABLE_CREATE, returns false and sends nothing more; a successful one returns true after sending every index statement and then every INSERT |
| EngineProps.CreateTableResult | engine/mysqli.engine.php:413-549 | true exactly when there are fields, the table is absent and CREATE TABLE succeeded |
| EngineProps.RunIndexesSendsAll | engine/mysqli.engine.php:457-534 | every index statement is sent, in order, whatever fails; errors are only appended |
| EngineProps.RunInsertsSendsAll | engine/mysqli.engine.php:691-738 | every INSERT is sent, in order, whatever fails; errors are only appended |
| EngineProps.IndexFailureRecorded | engine/mysqli.engine.php:525-528 | a failed index statement leaves QUERY_FAILED and then INDEX_CREATE naming the statement |
| EngineProps.InsertFailureRecorded | engine/mysqli.engine.php:735-737 | a failed INSERT leaves QUERY_FAILED and then INSERT_DATA naming the table; a successful one records nothing |
| EngineProps.AlterTableAbsent | engine/mysqli.engine.php:555-682 | alterTable returns nothing exactly when SHOW TABLES finds no table, and then sends nothing more |
| EngineProps.RunUntilFailSendsPrefix | engine/mysqli.engine.php:629-677 | a plan run until its first failure sends a prefix of the plan: all of it on success, else up to and including the failing statement |
| EngineProps.RunUntilFailFailure | engine/mysqli.engine.php:633-672 | on failure, the last error is the TABLE_ALTER of the failing statement |
| EngineProps.RunRulesFailure | engine/mysqli.engine.php:600-606 | when a rule fails, the last error is its TABLE_ALTER |
| EngineProps.AlterTableOutcome | engine/mysqli.engine.php:555-680 | on an existing table the result is true exactly when every alter rule and then every ADD of the plan succeeded, and false otherwise; on a missing table there is no result |
| EngineProps.AlterTableFailure | engine/mysqli.engine.php:600-672 | a false result leaves TABLE_ALTER as the last error |
| EngineProps.AlterTableSendsPlan | engine/mysqli.engine.php:629-680 | a true result means every alter rule succeeded and every ADD of the plan was sent, in order |
| EngineProps.AlterTableExtends | engine/mysqli.engine.php:551-682 | alterTable only appends to the statements sent and to the error stack |
| EngineProps.RunAltersExtends | engine/mysqli.engine.php:390-410 | alterTables only appends to the statements sent and to the error stack |
| EngineProps.LangAddsForShape | engine/mysqli.engine.php:646-675 | each language ADD of a field names a name_lang column missing from the snapshot, with the field's options and position |
| EngineProps.LangAddsForCover | engine/mysqli.engine.php:646-675 | every language whose name_lang column is missing gets an ADD |
| EngineProps.LangAddsAreLangColumns | engine/mysqli.engine.php:642-677 | every language ADD over several fields adds a missing column |
| EngineProps.PlainAddsAreNew | engine/mysqli.engine.php:618-633 | every plain ADD adds a column the snapshot lacks, from line 633 |
| EngineProps.AddPlanPlainFirst | engine/mysqli.engine.php:629-677 | the plain ADDs come first, one for each new non-multi-lingual field, then only language columns |
| EngineProps.FieldSequenceHead | engine/mysqli.engine.php:644 | the name order starts with the first field |
| EngineProps.FirstFieldColumnsGoFirst | engine/mysqli.engine.php:652-657 | new language columns of the first field are added FIRST |
| EngineProps.PositionalRowAsWritten | engine/mysqli.engine.php:729-732 | as written (an undefined field order), a positional row's INSERT has an empty column list but a non-empty VALUES list |
| EngineProps.PositionalRowNamesFields | engine/mysqli.engine.php:729-732 | with the table's field order, the i-th value goes to the i-th field's column |
| EngineSpec.RunUntilFailStops | engine/mysqli.engine.php:633-638 | once a statement fails, the rest of the plan is not sent |
| EngineSpec.RunRulesStops | engine/mysqli.engine.php:603-606 | once a rule fails, no later rule is sent |
| EngineSpec.FillSpec | engine/mysqli.engine.php:686-740 | fillTables sends one INSERT per data row whatever fails, and only appends to what was sent and to the error stack |
| EngineSpec.CreateTableSpec | engine/mysqli.engine.php:413-549 | only appends; true only with a link and a non-empty field list (EngineProps.CreateTableResult gives the whole condition) |
| EngineSpec.BuildTableSpec | engine/mysqli.engine.php:447-537 | only appends; with a link at least the CREATE is sent; true only with a link |
| EngineSpec.AlterTableSpec | engine/mysqli.engine.php:551-682 | without a link nothing changes and there is no result; a result only with a link (EngineProps.AlterTableOutcome gives its value) |
| EngineSpec.CreateTablesSpec | engine/mysqli.engine.php:369-387 | only appends; true only with a link and a matching engine tag |
| EngineSpec.AlterTablesSpec | engine/mysqli.engine.php:390-410 | without a link: false, and nothing changes |
| EngineSpec.RunIndexes | engine/mysqli.engine.php:457-534 | only appends; with a link, one statement sent per planned index |
| EngineSpec.RunInserts | engine/mysqli.engine.php:691-738 | only appends; with a link, one statement sent per planned INSERT |
| Statements.Render | engine/mysqli.engine.php:414-732 | every statement but SHOW TABLES names its table through codb_table(...), so processMacros qualifies it; SHOW TABLES LIKE quotes the bare name |
| Plans.CreateStatement | engine/mysqli.engine.php:418-447 | a CREATE TABLE of the table with its engine, one column per plain field and one per language of each multi-lingual field, and a charset and collate clause exactly when given |
| Plans.IndexPlan | engine/mysqli.engine.php:457-534 | every planned statement is a CREATE INDEX on the table |
| Plans.NodesPlan | engine/mysqli.engine.php:465-531 | every statement of an index section is a CREATE of that section's kind on the table |
| Plans.RowStatement | engine/mysqli.engine.php:691-732 | an INSERT into the table: SET exactly when the row's first value is named, otherwise VALUES with each value quoted and escaped, in order |
| Plans.RenameStatement | engine/mysqli.engine.php:565-580 | a CHANGE COLUMN of target to value with the read Type and Extra, a DEFAULT exactly when the read default is not empty(), and NOT NULL exactly when Null reads "no" |
| Plans.PlainAdds | engine/mysqli.engine.php:629-640 | one ADD per new plain field, in order, on the table |
| Plans.LangAdds | engine/mysqli.engine.php:642-677 | every language ADD is on the table and adds a column the snapshot lacks |
| Plans.AddPlan | engine/mysqli.engine.php:629-677 | every ADD of alterTable is a plain or language ADD on the table of a column the snapshot lacks |
| EngineSpec.RunIndexesConcat | engine/mysqli.engine.php:457-534 | running two index plans one after the other is running their concatenation |

## Left out

- The connection itself (`connect`, the constructor's mysqli call), transactions, `changeCharset`, `setCharset`, `isDuplicated`, `init`, `create`, `__callStatic` and `getAvailableDBMS`.
  - The link is a parameter: a server function from the statement history to an answer.
  - `escapeString` is its escape function.
- `float()` is not modelled, because floating point is out of scope.
- `getRow` and `getOne` are not modelled as operations.
  - Where the engine uses them, SHOW TABLES and SHOW COLUMNS read the first row of the answer.
- `debug_backtrace` is replaced by the caller frame, passed as a parameter.
- CodbCore.Codb.AddError: with backtracing off, the message names the stub's "unknown file" (corrected, Errors.Caller). As written it names no file (Errors.StubFileLostAsWritten); see Findings.
- Errors.StripTags: models strip_tags only for tags closed by '>'; quotes inside tags, comments and PHP tags are not modelled.
- Messages containing '%' are out of scope: sprintf would interpret a '%' in an appended query or in a custom text, and the model does not.
- `intval()` is modelled on decimal text with 64-bit clamping; hexadecimal, octal, exponent and float strings are not.
- PHP's loose comparisons (`==` in `in_array`, `array_search` and the language match) are modelled as string equality.
- Fetch.ShapeAssoc, Fetch.ShapeCol: these do not model the renumbering of numeric column names. PHP renumbers them (array_shift renumbers integer keys). Result column names are treated as distinct strings.
- Fetch.GetAssoc, Fetch.GetCol: a statement that returns `true` instead of a result set is not modelled; fetching from it is a PHP error.
- The model follows PHP 7 wherever PHP versions differ. PHP 8's TypeErrors on `null` and `false` arguments are not modelled.
- Snapshot: a failed DESCRIBE gives an empty snapshot. Under PHP 7, `in_array` on `false` warns and returns null, so every column counts as missing.
- Names from the XML description are taken as already trimmed. The source trims field, index and table names (engine/mysqli.engine.php:425, 471, 493, 554, 614, 706), but createTable uses the untrimmed `$table['name']` in SHOW TABLES and CREATE TABLE (engine/mysqli.engine.php:414, 447). The model does not distinguish the two.
- Back-references in the replacements are not modelled: `\1`, `$1` and `\\` inside the database name, the prefix or the current language are copied literally, where preg_replace would read them as back-references and escapes (codb.class.php:348-349).
- Macros.RewriteLang, MacroText.RewriteLangIn, MacroText.RewritePieces: these assume a current language without '('. A current language holding '(' can form a codb_table token together with the column name, and the second replacement rewrites it; what the text then becomes is not stated.
- Macros.RewriteLangAll, MacroText.RewriteLangAllIn, MacroText.RewritePieces: these assume languages without '('. A language holding '(' can put a codb_table or codb_lang token into the column list of the first pass, and the second pass then rewrites it; what the text then becomes is not stated.
- MacroText.RewritePieces, MacroText.RewriteIn, MacroText.RewriteTableIn, MacroText.RewriteLangIn, MacroText.RewriteLangAllIn: the plain text around the tokens must be text in which no token can start. It holds no macro opening, and each '(' right after 'g', 'e' or 'l' stands at least 9, 10 or 13 characters into its plain piece. Engine statements such as "( `a` int(11) )" or "VALUES( … )" meet this. A plain piece that starts "decimal(" does not, and neither does plain text holding a complete opening; for those the rewrite is not stated.
- Engine.CreateTable, Engine.BuildTable, EngineSpec.CreateTableSpec, EngineSpec.BuildTableSpec: these pass the table's natural field order to fillTables (corrected). As written the order is undefined inside fillTables, so a positional row's column list is empty (EngineProps.PositionalRowAsWritten); see Findings.
- CodbCore.Codb.SetCurrentLanguage: takes a string. The source stores any non-empty() value; a non-string current language is not modelled.
- CodbCore.Codb.SetDBPrefix: models the corrected setter. The setter as written (codb.class.php:242) is CodbCore.PrefixAfterAsWritten; see Findings.
- Fetch.ShapeCol: models the corrected loop. The loop as written (engine/mysqli.engine.php:219-231) is Fetch.ColRunAsWritten; see Findings.
- Fetch.GetCol: returns the corrected ShapeCol's array. As written, a primary key in the returned column collapses the array (Fetch.ColAsWrittenCollapses); see Findings.
- Rows are sequences of cells. A row repeating a column name, which fetch_assoc cannot return, is read at its first occurrence.
- The error stack is never cleared: the source has no operation that clears it.

## Findings

| source | as written | input that shows it | evidently intended | confidence | as-written member | corrected member |
|---|---|---|---|---|---|---|
| codb.class.php:242 | the string branch assigns the undefined `$define_prefix`, so the prefix becomes null | `setDBPrefix("wp_")` | the prefix becomes "wp_" | high (not executed) | CodbCore.PrefixAsWrittenLosesPrefix | CodbCore.Codb.SetDBPrefix |
| engine/mysqli.engine.php:729 | `$table_fields_natural_order` is a local of createTable, undefined inside fillTables, so under PHP 7 `array_slice(null, …)` warns and returns null and `implode` gives an empty column list | a `<data>` row with unnamed values | the i-th value goes to the i-th field's column | high (not executed) | EngineProps.PositionalRowAsWritten | EngineProps.PositionalRowNamesFields |
| engine/mysqli.engine.php:219-230 | after `array_shift` takes the value, the primary key is read from the shifted row, so a primary key in the first column is missing and every row lands under "" | `getCol("SELECT id FROM t", null, "id")` | each id keyed by itself | high (not executed) | Fetch.ColAsWrittenCollapses | Fetch.ColSingleColumnKeyed |
| codb.class.php:211-218 | with backtracing off, `$_backtrace` is the two-key stub and `$_backtrace[1]` does not exist, so sprintf prints "" for the file and 0 for the line | `setBacktraceState(false)`, then any failing query | the message names the stub's "unknown file" (the %d line prints the stub's "unknown line" as 0 either way) | high (not executed) | Errors.StubFileLostAsWritten | Errors.StubFileNamed |
