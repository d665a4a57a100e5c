/** The extension methods the extractor uses to read names and types off syntax nodes. */
module Extensions {
  import opened Wrappers
  import opened Text
  import opened SqlDom

  const CodeDomNamespace := "Microsoft.SqlServer.Management.SqlParser.SqlCodeDom"

  /** The type name printed for unknown nodes: the CLR type name with the parser's namespace removed. */
  function GetTypeName(typeName: string): (r: string)
    ensures r == typeName <==> !Occurs(CodeDomNamespace, typeName)
    ensures |r| <= |typeName|
  {
    RemoveAllUnchanged(typeName, CodeDomNamespace);
    RemoveAll(typeName, CodeDomNamespace)
  }

  /** The data type a simple WHEN clause gives a CASE expression: the literal's type, or VARCHAR. */
  function GetDataType(clause: WhenClause): (r: string)
    ensures clause.thenExpression.Literal? ==> r == clause.thenExpression.literalType
    ensures !clause.thenExpression.Literal? ==> r == "VARCHAR"
  {
    match clause.thenExpression
    case Literal(literalType) => literalType
    case _ => "VARCHAR"
  }

  /** `SqlObjectIdentifier.GetValue()`: the object name; the schema part plays no part. */
  function GetObjectName(identifier: ObjectIdentifier): (r: string)
    ensures r == identifier.objectName
  {
    identifier.objectName
  }

  /**
   * `SqlDataTypeSpecification.GetValue()`: the name of the specification's data type. The
   * type's schema and the specification's arguments (a length, a precision) are dropped.
   */
  function GetTypeValue(specification: Node): (r: string)
    requires specification.DataTypeSpecification?
    ensures r == specification.dataType.objectName
  {
    GetObjectName(specification.dataType)
  }

  /** Two specifications naming the same type, under any schema and with any arguments, have the same value. */
  lemma GetTypeValueDropsSchema(specification: Node, schema: string, argument1: Option<int>, argument2: Option<int>)
    requires specification.DataTypeSpecification?
    ensures var other := DataTypeSpecification(ObjectIdentifier(schema, specification.dataType.objectName), argument1, argument2);
      GetTypeValue(other) == GetTypeValue(specification)
  {
  }
}
