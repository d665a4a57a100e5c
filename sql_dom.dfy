/**
 * The part of the SQL parser's syntax tree that the table extractor looks at, as one
 * closed datatype. Each constructor stands for one node class the extractor switches on;
 * `Unknown` stands for every other class.
 */
module SqlDom {
  import opened Wrappers

  /** The parser's constraint-type tag. `Unspecified` is the value a new column starts with. */
  datatype ConstraintType =
    | Unspecified
    | Null
    | NotNull
    | Default
    | PrimaryKey
    | ForeignKey
    | Identity
    | RowGuidCol
    | Unique
    | Check

  /** A possibly schema-qualified name such as `[dbo].[Orders]` or `[sys].[int]`. */
  datatype ObjectIdentifier = ObjectIdentifier(schemaName: string, objectName: string)

  datatype WhenClause = SimpleWhenClause(thenExpression: Node)

  datatype Node =
    | Identifier(value: string)
    | DataTypeSpecification(dataType: ObjectIdentifier, argument1: Option<int>, argument2: Option<int>)
    | ColumnIdentity
      /** `indexedColumns` is null (`None`) when the parser attached none. */
    | PrimaryKeyConstraint(indexedColumns: Option<seq<string>>, children: seq<Node>)
      /** Any other constraint node, tagged with its kind. */
    | Constraint(kind: ConstraintType)
    | Collation
    | SimpleCaseExpression(whenClauses: seq<WhenClause>)
    | BuiltinScalarFunctionCall(functionName: string, children: seq<Node>)
    | ColumnRef(columnName: string)
      /** `literalType` is the name of the literal's value type, as `ToString()` gives it. */
    | Literal(literalType: string)
    | IndexedColumn(name: string)
    | IndexOption
    | ColumnDefinition(sql: string, children: seq<Node>)
    | ComputedColumnDefinition(sql: string, children: seq<Node>)
      /** `typeName` is the node's CLR type name. */
    | Unknown(typeName: string, sql: string)

  datatype CreateTableStatement = CreateTableStatement(name: ObjectIdentifier, sql: string, definition: seq<Node>)
}
