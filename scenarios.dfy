/** Worked CREATE TABLE statements, each taken through extraction, resolution and validation. */
module ParserScenarios {
  import opened Wrappers
  import opened Text
  import opened SqlDom
  import opened Ordering
  import opened TableColumns
  import opened Tables
  import opened Extractor
  import opened ExtractorProperties
  import opened Resolver
  import opened Validator
  import opened TableParser

  /** A definition with one child is that child's step. */
  lemma SingleChild(order: Order, table: Table, child: Node)
    ensures TableSteps(order, table, [child]) == TableStep(order, table, child)
  {
    assert [child][1..] == [];
  }

  // ---------------------------------------------------------------------------
  // Status CHAR(1) NOT NULL, Id INT IDENTITY, PRIMARY KEY (Id)

  const StatusDefinition: Node := ColumnDefinition("Status CHAR(1) NOT NULL",
    [Identifier("Status"), DataTypeSpecification(ObjectIdentifier("", "CHAR"), Some(1), None), Constraint(NotNull)])
  const IdDefinition: Node := ColumnDefinition("Id INT IDENTITY",
    [Identifier("Id"), DataTypeSpecification(ObjectIdentifier("", "INT"), None, None), ColumnIdentity])
  const IdKey: Node := PrimaryKeyConstraint(None, [IndexedColumn("Id")])
  const OrdersStatement: CreateTableStatement :=
    CreateTableStatement(ObjectIdentifier("dbo", "Orders"), "", [StatusDefinition, IdDefinition, IdKey])

  const StatusColumn: TableColumn := NewColumn("Status CHAR(1) NOT NULL", false).(
    name := Some("Status"), dataType := Some("CHAR"), dataTypeExtraInfo1 := Some(1), constraintType := NotNull)
  const IdColumn: TableColumn := NewColumn("Id INT IDENTITY", false).(
    name := Some("Id"), dataType := Some("INT"), isIdentityColumnExplicit := true)
  const OrdersExtracted: Table := Table("dbo", "Orders", "", [StatusColumn, IdColumn], [Some("Id")])
  const OrdersResolved: Table := OrdersExtracted.(columns := [StatusColumn, IdColumn.(isPrimaryKeyExplicit := true)])

  lemma StatusRead(order: Order, keys: seq<NString>)
    ensures ColumnSteps(order, ColumnState(NewColumn(StatusDefinition.sql, false), keys), StatusDefinition.children)
         == ColumnState(StatusColumn, keys)
  {
    var ch := StatusDefinition.children;
    var s0 := ColumnState(NewColumn(StatusDefinition.sql, false), keys);
    var s1 := ColumnState(s0.column.(name := Some("Status")), keys);
    var s2 := ColumnState(s1.column.(dataType := Some("CHAR"), dataTypeExtraInfo1 := Some(1)), keys);
    assert ColumnStep(order, s0, ch[0]) == s1;
    assert ColumnStep(order, s1, ch[1]) == s2;
    assert ColumnStep(order, s2, ch[2]) == ColumnState(StatusColumn, keys);
    assert ch[1..] == [ch[1], ch[2]] && [ch[1], ch[2]][1..] == [ch[2]] && [ch[2]][1..] == [];
  }

  lemma IdRead(order: Order, keys: seq<NString>)
    ensures ColumnSteps(order, ColumnState(NewColumn(IdDefinition.sql, false), keys), IdDefinition.children)
         == ColumnState(IdColumn, keys)
  {
    var ch := IdDefinition.children;
    var s0 := ColumnState(NewColumn(IdDefinition.sql, false), keys);
    var s1 := ColumnState(s0.column.(name := Some("Id")), keys);
    var s2 := ColumnState(s1.column.(dataType := Some("INT")), keys);
    assert ColumnStep(order, s0, ch[0]) == s1;
    assert ColumnStep(order, s1, ch[1]) == s2;
    assert ColumnStep(order, s2, ch[2]) == ColumnState(IdColumn, keys);
    assert ch[1..] == [ch[1], ch[2]] && [ch[1], ch[2]][1..] == [ch[2]] && [ch[2]][1..] == [];
  }

  lemma OrdersKeyStep(order: Order)
    ensures TableStep(order, OrdersExtracted.(primaryKeyColumns := []), IdKey) == Success(OrdersExtracted)
  {
    var t := OrdersExtracted.(primaryKeyColumns := []);
    assert TableStep(order, t, IdKey) == Success(t.(primaryKeyColumns := Merge(order, [], IndexedColumnNames(IdKey.children))));
    assert IndexedColumnNames(IdKey.children) == [Some("Id")];
    MergeIntoEmpty(order, Some("Id"));
  }

  lemma OrdersStatusStep(order: Order)
    ensures TableStep(order, NewTable(OrdersStatement), StatusDefinition)
         == Success(NewTable(OrdersStatement).(columns := [StatusColumn]))
  {
    StatusRead(order, []);
    assert [] + [StatusColumn] == [StatusColumn];
  }

  lemma OrdersIdStep(order: Order)
    ensures TableStep(order, NewTable(OrdersStatement).(columns := [StatusColumn]), IdDefinition)
         == Success(OrdersExtracted.(primaryKeyColumns := []))
  {
    IdRead(order, []);
    assert [StatusColumn] + [IdColumn] == [StatusColumn, IdColumn];
  }

  lemma OrdersKeyTail(order: Order)
    ensures TableSteps(order, OrdersExtracted.(primaryKeyColumns := []), [IdKey]) == Success(OrdersExtracted)
  {
    OrdersKeyStep(order);
    SingleChild(order, OrdersExtracted.(primaryKeyColumns := []), IdKey);
  }

  lemma OrdersTail(order: Order)
    ensures TableSteps(order, NewTable(OrdersStatement).(columns := [StatusColumn]), [IdDefinition, IdKey])
         == Success(OrdersExtracted)
  {
    OrdersIdStep(order);
    OrdersKeyTail(order);
    assert [IdDefinition, IdKey][1..] == [IdKey];
  }

  lemma OrdersExtraction(order: Order)
    ensures TableSteps(order, NewTable(OrdersStatement), OrdersStatement.definition) == Success(OrdersExtracted)
  {
    OrdersStatusStep(order);
    OrdersTail(order);
    assert OrdersStatement.definition[1..] == [IdDefinition, IdKey];
  }

  lemma OrdersLookups()
    ensures FindColumn(OrdersExtracted.columns, Some("Id")) == Some(1)
    ensures FindColumn(OrdersExtracted.columns, Some("ID")) == Some(1)
  {
    var names := Names(OrdersExtracted.columns);
    assert names == [Some("Status"), Some("Id")];
    assert ToUpper("Id") == "ID" && ToUpper("ID") == "ID";
    assert |ToUpper("Status")| == 6;
    assert !EqualsIgnoreCase(names[0], Some("Id")) && !EqualsIgnoreCase(names[0], Some("ID"));
    assert names[1..] == [Some("Id")];
    assert FindName(names[1..], Some("Id")) == Some(0);
    assert FindName(names[1..], Some("ID")) == Some(0);
  }

  lemma OrdersResolution()
    ensures Resolve(OrdersExtracted) == OrdersResolved
  {
    OrdersLookups();
    ResolveSpec(OrdersExtracted);
    var keys := OrdersExtracted.primaryKeyColumns;
    assert IsKeyColumn(OrdersExtracted.columns, keys, 1) by {
      assert FindColumn(OrdersExtracted.columns, keys[0]) == Some(1);
    }
    assert !IsKeyColumn(OrdersExtracted.columns, keys, 0);
  }

  lemma OrdersValid()
    ensures ValidateTable(OrdersResolved) == Pass
  {
    var columns := OrdersResolved.columns;
    assert !IsWhiteSpace("Status"[0]) && !IsWhiteSpace("Id"[0]) && !IsWhiteSpace("CHAR"[0]) && !IsWhiteSpace("INT"[0]);
    assert !Unnamed(columns[0]) && !Untyped(columns[0]);
    assert !Unnamed(columns[1]) && !Untyped(columns[1]);
    PassesWhenComplete(OrdersResolved);
  }

  /**
   * `Status CHAR(1) NOT NULL`, `Id INT IDENTITY`, `PRIMARY KEY (Id)`: the key list is
   * `["Id"]`, `Id` is the identity and a primary key (and the Id column, looked up in any
   * case), `Status` is NOT NULL and typed CHAR.
   */
  lemma OrdersStatementResult(order: Order)
    ensures CreateTable(order, OrdersStatement) == Success(OrdersResolved)
    ensures OrdersResolved.primaryKeyColumns == [Some("Id")]
    ensures OrdersResolved.columns[1].IsIdentity() && OrdersResolved.columns[1].IsPrimaryKey()
    ensures OrdersResolved.columns[0].IsNotNull() && OrdersResolved.columns[0].dataType == Some("CHAR")
    ensures FindColumn(OrdersResolved.columns, Some("ID")) == Some(1) && OrdersResolved.IsIdColumn(Some("ID"))
  {
    OrdersExtraction(order);
    OrdersResolution();
    OrdersValid();
    OrdersLookups();
    ResolveKeepsNames(OrdersExtracted);
  }

  // ---------------------------------------------------------------------------
  // FirstName VARCHAR(50), FullName AS ISNULL(FirstName, '')

  const FirstNameDefinition: Node := ColumnDefinition("FirstName VARCHAR(50)",
    [Identifier("FirstName"), DataTypeSpecification(ObjectIdentifier("", "VARCHAR"), Some(50), None)])
  const IsNullCall: Node := BuiltinScalarFunctionCall("ISNULL", [ColumnRef("FirstName"), Literal("VARCHAR")])
  const FullNameDefinition: Node := ComputedColumnDefinition("FullName AS ISNULL(FirstName, '')",
    [Identifier("FullName"), IsNullCall])
  const PeopleStatement: CreateTableStatement :=
    CreateTableStatement(ObjectIdentifier("dbo", "People"), "", [FirstNameDefinition, FullNameDefinition])

  const FirstNameColumn: TableColumn := NewColumn("FirstName VARCHAR(50)", false).(
    name := Some("FirstName"), dataType := Some("VARCHAR"), dataTypeExtraInfo1 := Some(50))
  const FullNameColumn: TableColumn := NewColumn("FullName AS ISNULL(FirstName, '')", true).(
    name := Some("FullName"), referenceColumn := Some("FirstName"))
  const PeopleExtracted: Table := Table("dbo", "People", "", [FirstNameColumn, FullNameColumn], [])
  const PeopleResolved: Table := PeopleExtracted.(columns := [FirstNameColumn, FullNameColumn.(dataType := Some("VARCHAR"))])

  lemma PeopleExtraction(order: Order)
    ensures TableSteps(order, NewTable(PeopleStatement), PeopleStatement.definition) == Success(PeopleExtracted)
  {
    var ch := FirstNameDefinition.children;
    var s0 := ColumnState(NewColumn(FirstNameDefinition.sql, false), []);
    var s1 := ColumnState(s0.column.(name := Some("FirstName")), []);
    assert ColumnStep(order, s0, ch[0]) == s1;
    assert ColumnStep(order, s1, ch[1]) == ColumnState(FirstNameColumn, []);
    assert ch[1..] == [ch[1]] && [ch[1]][1..] == [];
    assert ColumnSteps(order, s0, ch) == ColumnState(FirstNameColumn, []);

    var cs := FullNameDefinition.children;
    var c1 := NewColumn(FullNameDefinition.sql, true).(name := Some("FullName"));
    assert ToUpper("ISNULL") == "ISNULL";
    assert ProcessFunctionCallStatement(IsNullCall) == Success(Some("FirstName"));
    assert ComputedStep(NewColumn(FullNameDefinition.sql, true), cs[0]) == Success(c1);
    assert ComputedStep(c1, cs[1]) == Success(FullNameColumn);
    assert cs[1..] == [cs[1]] && [cs[1]][1..] == [];
    assert ComputedSteps(c1, [cs[1]]) == Success(FullNameColumn);
    assert ComputedSteps(NewColumn(FullNameDefinition.sql, true), cs) == Success(FullNameColumn);

    var t0 := NewTable(PeopleStatement);
    var t1 := t0.(columns := [FirstNameColumn]);
    assert TableStep(order, t0, FirstNameDefinition) == Success(t1) by {
      assert t0.columns + [FirstNameColumn] == [FirstNameColumn];
    }
    assert TableStep(order, t1, FullNameDefinition) == Success(PeopleExtracted) by {
      assert t1.columns + [FullNameColumn] == [FirstNameColumn, FullNameColumn];
    }
    var d := PeopleStatement.definition;
    assert d[1..] == [FullNameDefinition] && d[1..][1..] == [];
    assert TableSteps(order, t1, [FullNameDefinition]) == Success(PeopleExtracted);
  }

  /**
   * `FullName AS ISNULL(FirstName, '')` beside `FirstName VARCHAR(50)`: the computed column
   * refers to `FirstName` and is resolved to its type, VARCHAR.
   */
  lemma PeopleStatementResult(order: Order)
    ensures CreateTable(order, PeopleStatement) == Success(PeopleResolved)
    ensures PeopleResolved.columns[1].referenceColumn == Some("FirstName")
    ensures PeopleResolved.columns[1].dataType == Some("VARCHAR")
  {
    PeopleExtraction(order);
    PeopleResolution();
    PeopleValid();
  }

  lemma PeopleResolution()
    ensures Resolve(PeopleExtracted) == PeopleResolved
  {
    assert !IsWhiteSpace("FirstName"[0]);
    assert Names(PeopleExtracted.columns) == [Some("FirstName"), Some("FullName")];
    assert FindColumn(PeopleExtracted.columns, Some("FirstName")) == Some(0);
    ResolveSpec(PeopleExtracted);
    var r := Resolve(PeopleExtracted);
    assert !IsKeyColumn(PeopleExtracted.columns, [], 0) && !IsKeyColumn(PeopleExtracted.columns, [], 1);
    assert r.columns[0] == FirstNameColumn;
    assert r.columns[1] == FullNameColumn.(dataType := Some("VARCHAR"));
  }

  lemma PeopleValid()
    ensures ValidateTable(PeopleResolved) == Pass
  {
    var columns := PeopleResolved.columns;
    assert !IsWhiteSpace("FirstName"[0]) && !IsWhiteSpace("FullName"[0]) && !IsWhiteSpace("VARCHAR"[0]);
    assert !Unnamed(columns[0]) && !Untyped(columns[0]);
    assert !Unnamed(columns[1]) && !Untyped(columns[1]);
    PassesWhenComplete(PeopleResolved);
  }

  // ---------------------------------------------------------------------------
  // Day AS CONVERT([date], Stamp)

  const ConvertCall: Node := BuiltinScalarFunctionCall("CONVERT",
    [DataTypeSpecification(ObjectIdentifier("", "date"), None, None), ColumnRef("Stamp")])
  const DayDefinition: Node := ComputedColumnDefinition("Day AS CONVERT([date], Stamp)", [Identifier("Day"), ConvertCall])
  const EventsStatement: CreateTableStatement := CreateTableStatement(ObjectIdentifier("dbo", "Events"), "", [DayDefinition])
  const DayColumn: TableColumn := NewColumn("Day AS CONVERT([date], Stamp)", true).(
    name := Some("Day"), referenceColumn := Some("date"))
  const EventsExtracted: Table := Table("dbo", "Events", "", [DayColumn], [])
  const EventsResolved: Table := EventsExtracted.(columns := [DayColumn.(dataType := Some("date"))])

  lemma EventsExtraction(order: Order)
    ensures TableSteps(order, NewTable(EventsStatement), EventsStatement.definition) == Success(EventsExtracted)
  {
    var cs := DayDefinition.children;
    var c1 := NewColumn(DayDefinition.sql, true).(name := Some("Day"));
    assert ToUpper("CONVERT") == "CONVERT";
    assert ProcessFunctionCallStatement(ConvertCall) == Success(Some("date"));
    assert ComputedStep(NewColumn(DayDefinition.sql, true), cs[0]) == Success(c1);
    assert ComputedStep(c1, cs[1]) == Success(DayColumn);
    assert cs[1..] == [cs[1]] && [cs[1]][1..] == [];
    assert ComputedSteps(c1, [cs[1]]) == Success(DayColumn);
    assert ComputedSteps(NewColumn(DayDefinition.sql, true), cs) == Success(DayColumn);
    var t0 := NewTable(EventsStatement);
    assert t0.columns + [DayColumn] == [DayColumn];
    assert TableStep(order, t0, DayDefinition) == Success(EventsExtracted);
    assert EventsStatement.definition[1..] == [];
  }

  /**
   * `Day AS CONVERT([date], Stamp)` with no column named `date`: the type token is taken as
   * the reference and, matching no column, becomes the column's type; no error.
   */
  lemma EventsStatementResult(order: Order)
    ensures CreateTable(order, EventsStatement) == Success(EventsResolved)
    ensures EventsResolved.columns[0].dataType == Some("date")
  {
    EventsExtraction(order);
    assert !IsWhiteSpace("Day"[0]) && !IsWhiteSpace("date"[0]);
    assert Names(EventsExtracted.columns) == [Some("Day")];
    assert ToUpper("Day") != ToUpper("date") by {
      assert |ToUpper("Day")| == 3 && |ToUpper("date")| == 4;
    }
    assert FindColumn(EventsExtracted.columns, Some("date")) == None;
    ResolveSpec(EventsExtracted);
    var r := Resolve(EventsExtracted);
    assert !IsKeyColumn(EventsExtracted.columns, [], 0);
    assert r.columns[0] == DayColumn.(dataType := Some("date"));
    assert r == EventsResolved;
    assert !IsWhiteSpace("Day"[0]) && !IsWhiteSpace("date"[0]);
    assert !Unnamed(r.columns[0]) && !Untyped(r.columns[0]);
    PassesWhenComplete(r);
  }

  // ---------------------------------------------------------------------------
  // Id INT PRIMARY KEY, with the key visited before the identifier
  //
  // The child order here is constructed: a tree parsed from this text lists the identifier
  // first. The walk never assumes text order, so this tree shows what the loop does when a
  // shorthand key does come before the column's name.

  const KeyFirstDefinition: Node := ColumnDefinition("Id INT PRIMARY KEY",
    [PrimaryKeyConstraint(None, []), Identifier("Id"), DataTypeSpecification(ObjectIdentifier("", "INT"), None, None)])
  const KeysStatement: CreateTableStatement := CreateTableStatement(ObjectIdentifier("dbo", "Keys"), "", [KeyFirstDefinition])
  const KeyFirstColumn: TableColumn := NewColumn("Id INT PRIMARY KEY", false).(
    name := Some("Id"), dataType := Some("INT"), isPrimaryKeyExplicit := true)
  const KeysExtracted: Table := Table("dbo", "Keys", "", [KeyFirstColumn], [None])

  lemma KeyFirstShorthand(order: Order)
    ensures var s0 := ColumnState(NewColumn(KeyFirstDefinition.sql, false), []);
      ColumnStep(order, s0, KeyFirstDefinition.children[0])
      == ColumnState(s0.column.(isPrimaryKeyExplicit := true), [None])
  {
    var s0 := ColumnState(NewColumn(KeyFirstDefinition.sql, false), []);
    assert IsInlineShorthandKey(KeyFirstDefinition.children[0]);
    InlinePrimaryKeyStep(order, s0, KeyFirstDefinition.children[0]);
    MergeIntoEmpty(order, None);
  }

  lemma KeyFirstRead(order: Order)
    ensures ColumnSteps(order, ColumnState(NewColumn(KeyFirstDefinition.sql, false), []), KeyFirstDefinition.children)
         == ColumnState(KeyFirstColumn, [None])
  {
    var ch := KeyFirstDefinition.children;
    var s0 := ColumnState(NewColumn(KeyFirstDefinition.sql, false), []);
    var s1 := ColumnState(s0.column.(isPrimaryKeyExplicit := true), [None]);
    var s2 := ColumnState(s1.column.(name := Some("Id")), [None]);
    KeyFirstShorthand(order);
    assert ColumnStep(order, s1, ch[1]) == s2;
    assert ColumnStep(order, s2, ch[2]) == ColumnState(KeyFirstColumn, [None]);
    assert ch[1..] == [ch[1], ch[2]] && [ch[1], ch[2]][1..] == [ch[2]] && [ch[2]][1..] == [];
  }

  lemma KeysResolution()
    ensures Resolve(KeysExtracted) == KeysExtracted
    ensures ValidateTable(KeysExtracted) == Pass
  {
    assert FindColumn(KeysExtracted.columns, None) == None;
    ResolveSpec(KeysExtracted);
    assert !IsWhiteSpace("Id"[0]) && !IsWhiteSpace("INT"[0]);
    assert !Unnamed(KeysExtracted.columns[0]) && !Untyped(KeysExtracted.columns[0]);
    PassesWhenComplete(KeysExtracted);
  }

  /**
   * An inline `PRIMARY KEY` visited before the column's identifier adds a null entry to the
   * key list; the statement still goes through, but `IsPrimaryKey` then throws.
   */
  lemma KeysStatementResult(order: Order)
    ensures CreateTable(order, KeysStatement) == Success(KeysExtracted)
    ensures KeysExtracted.primaryKeyColumns == [None]
    ensures KeysExtracted.columns[0].IsPrimaryKey()
    ensures KeysExtracted.IsPrimaryKey(Some("Id")).Failure?
  {
    KeyFirstRead(order);
    var t0 := NewTable(KeysStatement);
    assert t0.columns + [KeyFirstColumn] == [KeyFirstColumn];
    assert TableStep(order, t0, KeyFirstDefinition) == Success(KeysExtracted);
    assert KeysStatement.definition[1..] == [];
    assert TableSteps(order, t0, KeysStatement.definition) == Success(KeysExtracted);
    KeysResolution();
    assert NullBeforeMatch([None], Some("Id"), 0);
  }
}
