/**
 * The XML table descriptions createTables and alterTables read, as values.
 * An absent optional child element or attribute is None (or "" where the
 * source only ever interpolates it); a flag element is true when present.
 */
module Schema {
  import opened Common

  /** A <field> node. */
  datatype FieldSpec = FieldSpec(
    name: string,
    sqlType: string,
    length: Option<string>,
    defaultValue: Option<string>,
    charset: Option<string>,
    collate: Option<string>,
    primaryKey: bool,
    autoIncrement: bool,
    nullable: bool,
    signed: bool,
    unsigned: bool,
    zerofill: bool,
    binary: bool,
    comment: Option<string>,
    multiLingual: bool)

  /** A member of an index group: its field and length attributes. */
  datatype IndexMember = IndexMember(field: string, length: Option<string>)

  /**
   * A child of an index section: an <index-group> with its group-name,
   * its own field attribute and its members, or any other node naming
   * one field.
   */
  datatype IndexNode =
    | Single(name: string, field: string, length: Option<string>)
    | Group(groupName: string, field: string, members: seq<IndexMember>)

  /** A child of <indexes>; its tag names the index type (index, unique, fulltext, ...). */
  datatype IndexSection = IndexSection(tag: string, nodes: seq<IndexNode>)

  /** A child of <alter-rules>, by tag; other tags are kept as Unknown. */
  datatype AlterRule =
    | RenameField(target: string, value: string)
    | DeleteField(target: string)
    | AlterField(target: string, options: FieldSpec)
    | DropIndex(target: string)
    | Unknown(tag: string)

  /** A value of a <data> row, with its optional name attribute. */
  datatype DataValue = DataValue(name: Option<string>, value: string)

  datatype DataRow = DataRow(values: seq<DataValue>)

  /** The <options> node: engine, charset and collation. */
  datatype TableOptions = TableOptions(engine: string, charset: Option<string>, collate: Option<string>)

  datatype TableSpec = TableSpec(
    name: string,
    fields: seq<FieldSpec>,
    options: TableOptions,
    indexes: seq<IndexSection>,
    alterRules: seq<AlterRule>,
    data: seq<DataRow>)

  /** The database node: its type attribute and its tables. */
  datatype DatabaseSpec = DatabaseSpec(engineType: string, tables: seq<TableSpec>)
}
