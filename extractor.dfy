/**
 * The first pass of `TableParser`: walk a CREATE TABLE definition and build its columns
 * and its primary-key list. Each walker is a method with a loop over the node's children,
 * proved equal to a specification function that folds one step per child.
 */
module Extractor {
  import opened Wrappers
  import opened Text
  import opened Queries
  import opened SqlDom
  import opened Extensions
  import opened Ordering
  import opened TableColumns
  import opened Tables

  // ---------------------------------------------------------------------------
  // Expressions of computed columns

  /** `Children.FirstOrDefault()`. */
  function FirstOrDefault(children: seq<Node>): (r: Option<Node>)
    ensures r.None? <==> |children| == 0
    ensures r.Some? ==> r.value == children[0]
  {
    if |children| == 0 then None else Some(children[0])
  }

  /**
   * `GetColumnName`: the name a column reference or data-type specification carries; null
   * for any other node. For a missing node the source logs it as unknown and dereferences
   * null while doing so.
   */
  function GetColumnName(codeObject: Option<Node>): (r: Result<NString, Fault>)
    ensures r.Failure? <==> codeObject.None?
    ensures codeObject.Some? && codeObject.value.ColumnRef? ==> r == Success(Some(codeObject.value.columnName))
    ensures codeObject.Some? && codeObject.value.DataTypeSpecification? ==>
      r == Success(Some(codeObject.value.dataType.objectName))
    ensures r.Success? && r.value.Some? ==> codeObject.value.ColumnRef? || codeObject.value.DataTypeSpecification?
  {
    match codeObject
    case None => Failure(NullReference("TableParser.LogUnknownObject"))
    case Some(node) =>
      match node
      case ColumnRef(columnName) => Success(Some(columnName))
      case DataTypeSpecification(_, _, _) => Success(Some(GetTypeValue(node)))
      case _ => Success(None)
  }

  /**
   * `ProcessFunctionCallStatement`: the name of the call's first argument, whatever the
   * function. Only for functions other than ISNULL and CONVERT is a blank name turned into null.
   */
  function ProcessFunctionCallStatement(expression: Node): (r: Result<NString, Fault>)
    requires expression.BuiltinScalarFunctionCall?
    ensures r.Failure? <==> |expression.children| == 0
    ensures var argument := GetColumnName(FirstOrDefault(expression.children));
      && (r.Success? && r.value.Some? ==> r == argument)
      && (argument.Success? && !IsNullOrWhiteSpace(argument.value) ==> r == argument)
      && (ToUpper(expression.functionName) in {"ISNULL", "CONVERT"} ==> r == argument)
      && (&& ToUpper(expression.functionName) !in {"ISNULL", "CONVERT"}
          && argument.Success? && IsNullOrWhiteSpace(argument.value)
          ==> r == Success(None))
  {
    var columnName := GetColumnName(FirstOrDefault(expression.children));
    var functionName := ToUpper(expression.functionName);
    if functionName == "ISNULL" then columnName
    else if functionName == "CONVERT" then columnName
    else if columnName.Failure? || !IsNullOrWhiteSpace(columnName.value) then columnName
    else Success(None)
  }

  /** `ProcessCaseStatement`: the type of the first WHEN clause, or VARCHAR when there is none. */
  function ProcessCaseStatement(whenClauses: seq<WhenClause>): (r: string)
    ensures |whenClauses| == 0 ==> r == "VARCHAR"
    ensures r != "VARCHAR" ==> |whenClauses| > 0 && whenClauses[0].thenExpression == Literal(r)
    ensures |whenClauses| > 0 && whenClauses[0].thenExpression.Literal? ==>
      r == whenClauses[0].thenExpression.literalType
  {
    if |whenClauses| == 0 then "VARCHAR" else GetDataType(whenClauses[0])
  }

  // ---------------------------------------------------------------------------
  // Primary-key constraints

  /** The names of the indexed-column children of a table-level primary-key constraint, in order. */
  function IndexedColumnNames(children: seq<Node>): (r: seq<NString>)
    ensures |r| <= |children|
    ensures forall i :: 0 <= i < |children| && children[i].IndexedColumn? ==> Some(children[i].name) in r
    ensures forall x :: x in r ==> x.Some? && IndexedColumn(x.value) in children
  {
    if |children| == 0 then []
    else
      var rest := IndexedColumnNames(children[1..]);
      assert forall i :: 1 <= i < |children| ==> children[i] == children[1..][i - 1];
      if children[0].IndexedColumn? then [Some(children[0].name)] + rest else rest
  }

  /** `GetPrimaryKeyColumns`: identifiers and index options are skipped, anything else is logged. */
  method GetPrimaryKeyColumns(constraint: Node) returns (results: seq<NString>)
    requires constraint.PrimaryKeyConstraint?
    ensures results == IndexedColumnNames(constraint.children)
  {
    var children := constraint.children;
    results := [];
    var i := 0;
    while i < |children|
      invariant 0 <= i <= |children|
      invariant IndexedColumnNames(children) == results + IndexedColumnNames(children[i..])
    {
      var child := children[i];
      var added := if child.IndexedColumn? then [Some(child.name)] else [];
      assert children[i..] == [child] + children[i + 1..];
      assert IndexedColumnNames(children[i..]) == added + IndexedColumnNames(children[i + 1..]);
      ConcatAssociative(results, added, IndexedColumnNames(children[i + 1..]));
      results := results + added;
      i := i + 1;
    }
    assert children[i..] == [];
  }

  /** The names an inline primary-key constraint lists under `IndexedColumns`. */
  function InlineIndexedNames(indexedColumns: seq<string>): (r: seq<NString>)
    ensures |r| == |indexedColumns| && forall i :: 0 <= i < |r| ==> r[i] == Some(indexedColumns[i])
  {
    seq(|indexedColumns|, i requires 0 <= i < |indexedColumns| => Some(indexedColumns[i]))
  }

  /** An inline `PRIMARY KEY` that lists its columns (`IndexedColumns?.Count > 0`). */
  predicate IsInlineCompositeKey(child: Node) {
    child.PrimaryKeyConstraint? && child.indexedColumns.Some? && |child.indexedColumns.value| > 0
  }

  /** The single-column shorthand: an inline `PRIMARY KEY` with no indexed columns and no children. */
  predicate IsInlineShorthandKey(child: Node) {
    child.PrimaryKeyConstraint? && !IsInlineCompositeKey(child) && |child.children| == 0
  }

  // ---------------------------------------------------------------------------
  // Column definitions

  /** The column being built, with the table's primary-key list (which the column may extend). */
  datatype ColumnState = ColumnState(column: TableColumn, primaryKeyColumns: seq<NString>)

  /** One iteration of `ProcessColumn`'s loop. */
  function ColumnStep(order: Order, st: ColumnState, child: Node): ColumnState {
    var column := st.column;
    match child
    case Identifier(value) => st.(column := column.(name := Some(value)))
    case DataTypeSpecification(_, argument1, argument2) =>
      st.(column := column.(dataType := Some(GetTypeValue(child)),
                            dataTypeExtraInfo1 := argument1, dataTypeExtraInfo2 := argument2))
    case ColumnIdentity => st.(column := column.(isIdentityColumnExplicit := true))
    case PrimaryKeyConstraint(indexedColumns, _) =>
      if IsInlineCompositeKey(child) then
        st.(primaryKeyColumns := Merge(order, st.primaryKeyColumns, InlineIndexedNames(indexedColumns.value)))
      else if IsInlineShorthandKey(child) then
        ColumnState(column.(isPrimaryKeyExplicit := true), Merge(order, st.primaryKeyColumns, [column.name]))
      else st
    case Constraint(kind) => st.(column := column.(constraintType := kind))
    case _ => st
  }

  function ColumnSteps(order: Order, st: ColumnState, children: seq<Node>): ColumnState
    decreases |children|
  {
    if |children| == 0 then st else ColumnSteps(order, ColumnStep(order, st, children[0]), children[1..])
  }

  /**
   * `ProcessColumn`: build a column from its definition's children, merging any inline
   * primary key into the table's list as it goes.
   */
  method ProcessColumn(order: Order, definition: Node, primaryKeyColumns: seq<NString>)
    returns (column: TableColumn, keys: seq<NString>)
    requires definition.ColumnDefinition?
    ensures ColumnState(column, keys)
         == ColumnSteps(order, ColumnState(NewColumn(definition.sql, false), primaryKeyColumns), definition.children)
  {
    var children := definition.children;
    ghost var start := ColumnState(NewColumn(definition.sql, false), primaryKeyColumns);
    column, keys := NewColumn(definition.sql, false), primaryKeyColumns;
    var i := 0;
    while i < |children|
      invariant 0 <= i <= |children|
      invariant ColumnSteps(order, start, children) == ColumnSteps(order, ColumnState(column, keys), children[i..])
    {
      assert children[i..][1..] == children[i + 1..];
      var child := children[i];
      match child {
        case Identifier(value) =>
          column := column.(name := Some(value));
        case DataTypeSpecification(_, argument1, argument2) =>
          column := column.(dataType := Some(GetTypeValue(child)),
                            dataTypeExtraInfo1 := argument1, dataTypeExtraInfo2 := argument2);
        case ColumnIdentity =>
          column := column.(isIdentityColumnExplicit := true);
        case PrimaryKeyConstraint(indexedColumns, constraintChildren) =>
          if indexedColumns.Some? && |indexedColumns.value| > 0 {
            keys := Merge(order, keys, InlineIndexedNames(indexedColumns.value));
          } else if |constraintChildren| == 0 {
            column := column.(isPrimaryKeyExplicit := true);
            keys := Merge(order, keys, [column.name]);
          }
        case Constraint(kind) =>
          column := column.(constraintType := kind);
        case _ =>
      }
      i := i + 1;
    }
  }

  // ---------------------------------------------------------------------------
  // Computed column definitions

  /** One iteration of `ProcessComputedColumn`'s loop; a function call without arguments throws. */
  function ComputedStep(column: TableColumn, child: Node): Result<TableColumn, Fault> {
    match child
    case Identifier(value) => Success(column.(name := Some(value)))
    case SimpleCaseExpression(whenClauses) => Success(column.(dataType := Some(ProcessCaseStatement(whenClauses))))
    case BuiltinScalarFunctionCall(_, _) =>
      (match ProcessFunctionCallStatement(child)
       case Failure(e) => Failure(e)
       case Success(reference) => Success(column.(referenceColumn := reference)))
    case ColumnRef(columnName) => Success(column.(referenceColumn := Some(columnName)))
    case PrimaryKeyConstraint(_, _) => Success(column)
    case Constraint(_) => Success(column)
    case _ => Success(column.(dataType := Some("VARCHAR")))
  }

  function ComputedSteps(column: TableColumn, children: seq<Node>): Result<TableColumn, Fault>
    decreases |children|
  {
    if |children| == 0 then Success(column)
    else
      match ComputedStep(column, children[0])
      case Failure(e) => Failure(e)
      case Success(next) => ComputedSteps(next, children[1..])
  }

  /** `ProcessComputedColumn`: build a computed column from its definition's children. */
  method ProcessComputedColumn(definition: Node) returns (r: Result<TableColumn, Fault>)
    requires definition.ComputedColumnDefinition?
    ensures r == ComputedSteps(NewColumn(definition.sql, true), definition.children)
  {
    var children := definition.children;
    var column := NewColumn(definition.sql, true);
    var i := 0;
    while i < |children|
      invariant 0 <= i <= |children|
      invariant ComputedSteps(NewColumn(definition.sql, true), children) == ComputedSteps(column, children[i..])
    {
      assert children[i..][1..] == children[i + 1..];
      var child := children[i];
      match child {
        case Identifier(value) =>
          column := column.(name := Some(value));
        case SimpleCaseExpression(whenClauses) =>
          column := column.(dataType := Some(ProcessCaseStatement(whenClauses)));
        case BuiltinScalarFunctionCall(_, _) =>
          var reference := ProcessFunctionCallStatement(child);
          if reference.Failure? {
            return Failure(reference.error);
          }
          column := column.(referenceColumn := reference.value);
        case ColumnRef(columnName) =>
          column := column.(referenceColumn := Some(columnName));
        case PrimaryKeyConstraint(_, _) =>
        case Constraint(_) =>
        case _ =>
          column := column.(dataType := Some("VARCHAR"));
      }
      i := i + 1;
    }
    r := Success(column);
  }

  // ---------------------------------------------------------------------------
  // Table definitions

  /** One iteration of `ProcessTableDefinition`'s loop. */
  function TableStep(order: Order, table: Table, child: Node): Result<Table, Fault> {
    match child
    case ComputedColumnDefinition(sql, children) =>
      (match ComputedSteps(NewColumn(sql, true), children)
       case Failure(e) => Failure(e)
       case Success(column) => Success(table.(columns := table.columns + [column])))
    case ColumnDefinition(sql, children) =>
      var st := ColumnSteps(order, ColumnState(NewColumn(sql, false), table.primaryKeyColumns), children);
      Success(table.(columns := table.columns + [st.column], primaryKeyColumns := st.primaryKeyColumns))
    case PrimaryKeyConstraint(_, children) =>
      Success(table.(primaryKeyColumns := Merge(order, table.primaryKeyColumns, IndexedColumnNames(children))))
    case _ => Success(table)
  }

  function TableSteps(order: Order, table: Table, children: seq<Node>): Result<Table, Fault>
    decreases |children|
  {
    if |children| == 0 then Success(table)
    else
      match TableStep(order, table, children[0])
      case Failure(e) => Failure(e)
      case Success(next) => TableSteps(order, next, children[1..])
  }

  /** `ProcessTableDefinition`: append one column per column definition and merge table-level keys. */
  method ProcessTableDefinition(order: Order, definition: seq<Node>, table: Table) returns (r: Result<Table, Fault>)
    ensures r == TableSteps(order, table, definition)
  {
    var columns, keys := table.columns, table.primaryKeyColumns;
    var i := 0;
    while i < |definition|
      invariant 0 <= i <= |definition|
      invariant TableSteps(order, table, definition)
             == TableSteps(order, table.(columns := columns, primaryKeyColumns := keys), definition[i..])
    {
      assert definition[i..][1..] == definition[i + 1..];
      var child := definition[i];
      match child {
        case ComputedColumnDefinition(_, _) =>
          var column := ProcessComputedColumn(child);
          if column.Failure? {
            return Failure(column.error);
          }
          columns := columns + [column.value];
        case ColumnDefinition(_, _) =>
          var column;
          column, keys := ProcessColumn(order, child, keys);
          columns := columns + [column];
        case PrimaryKeyConstraint(_, _) =>
          var added := GetPrimaryKeyColumns(child);
          keys := Merge(order, keys, added);
        case _ =>
      }
      i := i + 1;
    }
    r := Success(table.(columns := columns, primaryKeyColumns := keys));
  }
}

/** What the extraction pass promises, proved about its specification functions. */
module ExtractorProperties {
  import opened Wrappers
  import opened Text
  import opened Queries
  import opened SqlDom
  import opened Ordering
  import opened TableColumns
  import opened Tables
  import opened Extractor

  /** `children[k]` is a generic constraint and no later child is one. */
  ghost predicate IsLastConstraint(children: seq<Node>, k: int) {
    0 <= k < |children| && children[k].Constraint? && forall j :: k < j < |children| ==> !children[j].Constraint?
  }

  /** `children[k]` is an identifier and no later child is one. */
  ghost predicate IsLastIdentifier(children: seq<Node>, k: int) {
    0 <= k < |children| && children[k].Identifier? && forall j :: k < j < |children| ==> !children[j].Identifier?
  }

  /** `children[k]` is a data-type specification and no later child is one. */
  ghost predicate IsLastTypeSpecification(children: seq<Node>, k: int) {
    && 0 <= k < |children| && children[k].DataTypeSpecification?
    && forall j :: k < j < |children| ==> !children[j].DataTypeSpecification?
  }

  /** The column's name at the moment child `i` is visited. */
  function NameWhenVisited(name: NString, children: seq<Node>, i: nat): NString
    requires i <= |children|
    decreases i
  {
    if i == 0 then name
    else NameWhenVisited(if children[0].Identifier? then Some(children[0].value) else name, children[1..], i - 1)
  }

  /** The names an inline primary-key child adds to the table's list, given the column's current name. */
  function InlineKeyNames(child: Node, currentName: NString): seq<NString> {
    if IsInlineCompositeKey(child) then InlineIndexedNames(child.indexedColumns.value)
    else if IsInlineShorthandKey(child) then [currentName]
    else []
  }

  /** The two inline primary-key cases, one child at a time. */
  lemma InlinePrimaryKeyStep(order: Order, st: ColumnState, child: Node)
    requires child.PrimaryKeyConstraint?
    ensures IsInlineCompositeKey(child) ==>
      && ColumnStep(order, st, child).column == st.column
      && (forall x :: x in ColumnStep(order, st, child).primaryKeyColumns <==>
            x in st.primaryKeyColumns || x in InlineIndexedNames(child.indexedColumns.value))
    ensures IsInlineShorthandKey(child) ==>
      && ColumnStep(order, st, child).column == st.column.(isPrimaryKeyExplicit := true)
      && ColumnStep(order, st, child).primaryKeyColumns == Merge(order, st.primaryKeyColumns, [st.column.name])
      && (forall x :: x in ColumnStep(order, st, child).primaryKeyColumns <==>
            x in st.primaryKeyColumns || x == st.column.name)
    ensures !IsInlineCompositeKey(child) && !IsInlineShorthandKey(child) ==> ColumnStep(order, st, child) == st
  {
  }

  /** One child's effect on the column's own fields. */
  lemma ColumnStepFields(order: Order, st: ColumnState, child: Node)
    ensures var column := ColumnStep(order, st, child).column;
      && column.constraintType == (if child.Constraint? then child.kind else st.column.constraintType)
      && column.name == (if child.Identifier? then Some(child.value) else st.column.name)
      && column.isIdentityColumnExplicit == (st.column.isIdentityColumnExplicit || child == ColumnIdentity)
      && column.isPrimaryKeyExplicit == (st.column.isPrimaryKeyExplicit || IsInlineShorthandKey(child))
      && column.computed == st.column.computed
      && column.sql == st.column.sql
      && column.referenceColumn == st.column.referenceColumn
      && column.dataType == (if child.DataTypeSpecification? then Some(child.dataType.objectName) else st.column.dataType)
      && column.dataTypeExtraInfo1 == (if child.DataTypeSpecification? then child.argument1 else st.column.dataTypeExtraInfo1)
      && column.dataTypeExtraInfo2 == (if child.DataTypeSpecification? then child.argument2 else st.column.dataTypeExtraInfo2)
  {
  }

  /**
   * A column's type is the unqualified type name of the last data-type specification among
   * its definition's children, with that specification's two arguments as its extra type
   * information; with no specification all three fields stay as they were.
   */
  lemma {:induction false} ColumnStepsDataType(order: Order, st: ColumnState, children: seq<Node>)
    ensures forall k :: IsLastTypeSpecification(children, k) ==>
      var column := ColumnSteps(order, st, children).column;
      && column.dataType == Some(children[k].dataType.objectName)
      && column.dataTypeExtraInfo1 == children[k].argument1
      && column.dataTypeExtraInfo2 == children[k].argument2
    ensures (forall j :: 0 <= j < |children| ==> !children[j].DataTypeSpecification?) ==>
      var column := ColumnSteps(order, st, children).column;
      && column.dataType == st.column.dataType
      && column.dataTypeExtraInfo1 == st.column.dataTypeExtraInfo1
      && column.dataTypeExtraInfo2 == st.column.dataTypeExtraInfo2
    decreases |children|
  {
    if |children| > 0 {
      var next := ColumnStep(order, st, children[0]);
      var rest := children[1..];
      ColumnStepFields(order, st, children[0]);
      ColumnStepsDataType(order, next, rest);
      assert forall j :: 1 <= j < |children| ==> children[j] == rest[j - 1];
      forall k | IsLastTypeSpecification(children, k) && k > 0 ensures IsLastTypeSpecification(rest, k - 1) {
      }
    }
  }

  /** The column a definition builds does not depend on the key list it is merged into. */
  lemma {:induction false} ColumnStepsColumnIgnoresKeys(order: Order, column: TableColumn,
                                                         keys: seq<NString>, otherKeys: seq<NString>, children: seq<Node>)
    ensures ColumnSteps(order, ColumnState(column, keys), children).column
         == ColumnSteps(order, ColumnState(column, otherKeys), children).column
    decreases |children|
  {
    if |children| > 0 {
      var next := ColumnStep(order, ColumnState(column, keys), children[0]);
      var other := ColumnStep(order, ColumnState(column, otherKeys), children[0]);
      assert next.column == other.column;
      ColumnStepsColumnIgnoresKeys(order, next.column, next.primaryKeyColumns, other.primaryKeyColumns, children[1..]);
    }
  }

  /**
   * A column's constraint type is the kind of the last generic constraint among its
   * definition's children, and is left as it was when there is none.
   */
  lemma {:induction false} ColumnStepsConstraintType(order: Order, st: ColumnState, children: seq<Node>)
    ensures forall k :: IsLastConstraint(children, k) ==>
      ColumnSteps(order, st, children).column.constraintType == children[k].kind
    ensures (forall j :: 0 <= j < |children| ==> !children[j].Constraint?) ==>
      ColumnSteps(order, st, children).column.constraintType == st.column.constraintType
    decreases |children|
  {
    if |children| > 0 {
      var next := ColumnStep(order, st, children[0]);
      var rest := children[1..];
      ColumnStepFields(order, st, children[0]);
      ColumnStepsConstraintType(order, next, rest);
      assert forall j :: 1 <= j < |children| ==> children[j] == rest[j - 1];
      forall k | IsLastConstraint(children, k) && k > 0 ensures IsLastConstraint(rest, k - 1) {
      }
    }
  }

  /** A column is named by the last identifier among its definition's children. */
  lemma {:induction false} ColumnStepsName(order: Order, st: ColumnState, children: seq<Node>)
    ensures forall k :: IsLastIdentifier(children, k) ==>
      ColumnSteps(order, st, children).column.name == Some(children[k].value)
    ensures (forall j :: 0 <= j < |children| ==> !children[j].Identifier?) ==>
      ColumnSteps(order, st, children).column.name == st.column.name
    decreases |children|
  {
    if |children| > 0 {
      var next := ColumnStep(order, st, children[0]);
      var rest := children[1..];
      ColumnStepFields(order, st, children[0]);
      ColumnStepsName(order, next, rest);
      assert forall j :: 1 <= j < |children| ==> children[j] == rest[j - 1];
      forall k | IsLastIdentifier(children, k) && k > 0 ensures IsLastIdentifier(rest, k - 1) {
      }
    }
  }

  /**
   * An identity marker anywhere sets the explicit identity flag and the inline shorthand key
   * anywhere sets the explicit key flag; a plain column definition changes neither its
   * computed flag, its source text nor its reference.
   */
  lemma {:induction false} ColumnStepsFlags(order: Order, st: ColumnState, children: seq<Node>)
    ensures var column := ColumnSteps(order, st, children).column;
      && (column.isIdentityColumnExplicit <==> st.column.isIdentityColumnExplicit || ColumnIdentity in children)
      && (column.isPrimaryKeyExplicit <==>
            st.column.isPrimaryKeyExplicit || exists j :: 0 <= j < |children| && IsInlineShorthandKey(children[j]))
      && column.computed == st.column.computed
      && column.sql == st.column.sql
      && column.referenceColumn == st.column.referenceColumn
    decreases |children|
  {
    if |children| > 0 {
      var next := ColumnStep(order, st, children[0]);
      var rest := children[1..];
      ColumnStepFields(order, st, children[0]);
      ColumnStepsFlags(order, next, rest);
      assert children == [children[0]] + rest;
      if exists j :: 0 <= j < |children| && IsInlineShorthandKey(children[j]) {
        var j :| 0 <= j < |children| && IsInlineShorthandKey(children[j]);
        if j > 0 {
          assert IsInlineShorthandKey(rest[j - 1]);
        }
      }
    }
  }

  /**
   * The table's primary-key list after a column definition: the earlier entries plus the
   * names its inline keys contribute, a shorthand key contributing the column's name as it
   * stands when the key is visited (null if no identifier came before it).
   */
  lemma {:induction false} ColumnStepsKeys(order: Order, st: ColumnState, children: seq<Node>)
    ensures forall x :: x in ColumnSteps(order, st, children).primaryKeyColumns <==>
      || x in st.primaryKeyColumns
      || exists i :: 0 <= i < |children| && x in InlineKeyNames(children[i], NameWhenVisited(st.column.name, children, i))
    decreases |children|
  {
    if |children| > 0 {
      var next := ColumnStep(order, st, children[0]);
      var rest := children[1..];
      ColumnStepsKeys(order, next, rest);
      assert forall x :: x in next.primaryKeyColumns <==>
        x in st.primaryKeyColumns || x in InlineKeyNames(children[0], st.column.name);
      assert forall i :: 0 <= i < |rest| ==>
        NameWhenVisited(next.column.name, rest, i) == NameWhenVisited(st.column.name, children, i + 1);
      forall x ensures x in ColumnSteps(order, st, children).primaryKeyColumns <==>
        || x in st.primaryKeyColumns
        || exists i :: 0 <= i < |children| && x in InlineKeyNames(children[i], NameWhenVisited(st.column.name, children, i))
      {
        if exists i :: 0 <= i < |children| && x in InlineKeyNames(children[i], NameWhenVisited(st.column.name, children, i)) {
          var i :| 0 <= i < |children| && x in InlineKeyNames(children[i], NameWhenVisited(st.column.name, children, i));
          if i > 0 {
            assert children[i] == rest[i - 1];
            assert x in InlineKeyNames(rest[i - 1], NameWhenVisited(next.column.name, rest, i - 1));
          }
        }
        if exists i :: 0 <= i < |rest| && x in InlineKeyNames(rest[i], NameWhenVisited(next.column.name, rest, i)) {
          var i :| 0 <= i < |rest| && x in InlineKeyNames(rest[i], NameWhenVisited(next.column.name, rest, i));
          assert x in InlineKeyNames(children[i + 1], NameWhenVisited(st.column.name, children, i + 1));
        }
      }
    }
  }

  /** A column definition keeps the table's primary-key list sorted and duplicate-free. */
  lemma {:induction false} ColumnStepsKeepKeysNormal(order: Order, st: ColumnState, children: seq<Node>)
    requires TotalPreorder(order)
    requires Sorted(order, st.primaryKeyColumns) && NoDuplicates(st.primaryKeyColumns)
    ensures Sorted(order, ColumnSteps(order, st, children).primaryKeyColumns)
    ensures NoDuplicates(ColumnSteps(order, st, children).primaryKeyColumns)
    decreases |children|
  {
    if |children| > 0 {
      var child := children[0];
      if IsInlineCompositeKey(child) {
        MergeSortedDistinct(order, st.primaryKeyColumns, InlineIndexedNames(child.indexedColumns.value));
      } else if IsInlineShorthandKey(child) {
        MergeSortedDistinct(order, st.primaryKeyColumns, [st.column.name]);
      }
      ColumnStepsKeepKeysNormal(order, ColumnStep(order, st, child), children[1..]);
    }
  }

  /** A function call without arguments: `GetColumnName(null)` throws on it. */
  predicate IsArgumentlessCall(child: Node) {
    child.BuiltinScalarFunctionCall? && |child.children| == 0
  }

  /** A child that sets a computed column's reference: a column reference or a function call. */
  predicate SetsReference(child: Node) {
    child.ColumnRef? || child.BuiltinScalarFunctionCall?
  }

  /** The reference such a child sets (a failing call never completes the column). */
  function ReferenceOf(child: Node): NString
    requires SetsReference(child)
  {
    if child.ColumnRef? then Some(child.columnName)
    else match ProcessFunctionCallStatement(child)
      case Success(reference) => reference
      case Failure(_) => None
  }

  /** A child that sets a computed column's type: a CASE expression or any kind the loop does not name. */
  predicate SetsComputedType(child: Node) {
    !(child.Identifier? || SetsReference(child) || child.PrimaryKeyConstraint? || child.Constraint?)
  }

  /** The type such a child sets: the CASE expression's type, or VARCHAR for the default branch. */
  function ComputedTypeOf(child: Node): string {
    if child.SimpleCaseExpression? then ProcessCaseStatement(child.whenClauses) else "VARCHAR"
  }

  /** `children[k]` sets the reference and no later child does. */
  ghost predicate IsLastReference(children: seq<Node>, k: int) {
    0 <= k < |children| && SetsReference(children[k]) && forall j :: k < j < |children| ==> !SetsReference(children[j])
  }

  /** `children[k]` sets the type and no later child does. */
  ghost predicate IsLastTypeSetter(children: seq<Node>, k: int) {
    0 <= k < |children| && SetsComputedType(children[k]) && forall j :: k < j < |children| ==> !SetsComputedType(children[j])
  }

  /** One child's effect on a computed column. */
  lemma ComputedStepFields(column: TableColumn, child: Node)
    ensures ComputedStep(column, child).Failure? <==> IsArgumentlessCall(child)
    ensures ComputedStep(column, child).Success? ==>
      var c := ComputedStep(column, child).value;
      && c.computed == column.computed && c.sql == column.sql
      && c.isPrimaryKeyExplicit == column.isPrimaryKeyExplicit
      && c.isIdentityColumnExplicit == column.isIdentityColumnExplicit
      && c.constraintType == column.constraintType
      && c.name == (if child.Identifier? then Some(child.value) else column.name)
      && c.referenceColumn == (if SetsReference(child) then ReferenceOf(child) else column.referenceColumn)
      && c.dataType == (if SetsComputedType(child) then Some(ComputedTypeOf(child)) else column.dataType)
      && c.dataTypeExtraInfo1 == column.dataTypeExtraInfo1
      && c.dataTypeExtraInfo2 == column.dataTypeExtraInfo2
  {
  }

  /**
   * Building a computed column fails exactly when one of its children is a function call
   * without arguments; on success the column is still computed and keeps its key, identity,
   * constraint and source fields.
   */
  lemma {:induction false} ComputedStepsOutcome(column: TableColumn, children: seq<Node>)
    ensures ComputedSteps(column, children).Failure? <==> exists i :: 0 <= i < |children| && IsArgumentlessCall(children[i])
    ensures ComputedSteps(column, children).Success? ==>
      var c := ComputedSteps(column, children).value;
      && c.computed == column.computed && c.sql == column.sql
      && c.isPrimaryKeyExplicit == column.isPrimaryKeyExplicit
      && c.isIdentityColumnExplicit == column.isIdentityColumnExplicit
      && c.constraintType == column.constraintType
      && (forall k :: IsLastIdentifier(children, k) ==> c.name == Some(children[k].value))
      && ((forall j :: 0 <= j < |children| ==> !children[j].Identifier?) ==> c.name == column.name)
    decreases |children|
  {
    if |children| > 0 {
      var rest := children[1..];
      assert forall j :: 1 <= j < |children| ==> children[j] == rest[j - 1];
      ComputedStepFields(column, children[0]);
      match ComputedStep(column, children[0])
      case Failure(_) =>
      case Success(next) =>
        ComputedStepsOutcome(next, rest);
        forall k | IsLastIdentifier(children, k) && k > 0 ensures IsLastIdentifier(rest, k - 1) {
        }
        if exists i :: 0 <= i < |children| && IsArgumentlessCall(children[i]) {
          var i :| 0 <= i < |children| && IsArgumentlessCall(children[i]);
          assert i > 0 && IsArgumentlessCall(rest[i - 1]);
        }
    }
  }

  /**
   * A built computed column refers to what the last column reference or function call
   * among its children names, and keeps its reference when there is none.
   */
  lemma {:induction false} ComputedStepsReference(column: TableColumn, children: seq<Node>)
    ensures ComputedSteps(column, children).Success? ==>
      var c := ComputedSteps(column, children).value;
      && (forall k :: IsLastReference(children, k) ==> c.referenceColumn == ReferenceOf(children[k]))
      && ((forall j :: 0 <= j < |children| ==> !SetsReference(children[j])) ==> c.referenceColumn == column.referenceColumn)
    decreases |children|
  {
    if |children| > 0 {
      var rest := children[1..];
      assert forall j :: 1 <= j < |children| ==> children[j] == rest[j - 1];
      ComputedStepFields(column, children[0]);
      match ComputedStep(column, children[0])
      case Failure(_) =>
      case Success(next) =>
        ComputedStepsReference(next, rest);
        forall k | IsLastReference(children, k) && k > 0 ensures IsLastReference(rest, k - 1) {
        }
    }
  }

  /**
   * A built computed column takes its type from the last child that sets one: a CASE
   * expression's type, or VARCHAR for any other unnamed kind of child; it keeps its
   * type, and its extra type information, otherwise.
   */
  lemma {:induction false} ComputedStepsDataType(column: TableColumn, children: seq<Node>)
    ensures ComputedSteps(column, children).Success? ==>
      var c := ComputedSteps(column, children).value;
      && (forall k :: IsLastTypeSetter(children, k) ==> c.dataType == Some(ComputedTypeOf(children[k])))
      && ((forall j :: 0 <= j < |children| ==> !SetsComputedType(children[j])) ==> c.dataType == column.dataType)
      && c.dataTypeExtraInfo1 == column.dataTypeExtraInfo1
      && c.dataTypeExtraInfo2 == column.dataTypeExtraInfo2
    decreases |children|
  {
    if |children| > 0 {
      var rest := children[1..];
      assert forall j :: 1 <= j < |children| ==> children[j] == rest[j - 1];
      ComputedStepFields(column, children[0]);
      match ComputedStep(column, children[0])
      case Failure(_) =>
      case Success(next) =>
        ComputedStepsDataType(next, rest);
        forall k | IsLastTypeSetter(children, k) && k > 0 ensures IsLastTypeSetter(rest, k - 1) {
        }
    }
  }

  /**
   * The column a definition builds on its own: the computed-column walk, or the column walk
   * (whose column part does not depend on the key list).
   */
  function BuiltColumn(order: Order, definition: Node): Result<TableColumn, Fault>
    requires definition.ColumnDefinition? || definition.ComputedColumnDefinition?
  {
    if definition.ComputedColumnDefinition? then ComputedSteps(NewColumn(definition.sql, true), definition.children)
    else Success(ColumnSteps(order, ColumnState(NewColumn(definition.sql, false), []), definition.children).column)
  }

  /** The column and computed-column definitions among a table definition's children, in order. */
  function ColumnDefinitions(children: seq<Node>): (r: seq<Node>)
    ensures |r| <= |children|
    ensures forall k :: 0 <= k < |r| ==> r[k].ColumnDefinition? || r[k].ComputedColumnDefinition?
  {
    if |children| == 0 then []
    else if children[0].ColumnDefinition? || children[0].ComputedColumnDefinition? then
      [children[0]] + ColumnDefinitions(children[1..])
    else ColumnDefinitions(children[1..])
  }

  /** The definitions of a run of children are those of its first part, then those of the rest, in order. */
  lemma {:induction false} ColumnDefinitionsAppend(a: seq<Node>, b: seq<Node>)
    ensures ColumnDefinitions(a + b) == ColumnDefinitions(a) + ColumnDefinitions(b)
    decreases |a|
  {
    if |a| == 0 {
      assert a + b == b;
    } else {
      assert (a + b)[0] == a[0] && (a + b)[1..] == a[1..] + b;
      ColumnDefinitionsAppend(a[1..], b);
    }
  }

  /** A single child yields itself exactly when it is a column or computed-column definition. */
  lemma ColumnDefinitionsSingle(child: Node)
    ensures ColumnDefinitions([child]) ==
      if child.ColumnDefinition? || child.ComputedColumnDefinition? then [child] else []
  {
    assert [child][1..] == [];
  }

  /** A computed-column definition holding a function call without arguments. */
  predicate FailsToBuild(child: Node) {
    child.ComputedColumnDefinition?
    && exists j :: 0 <= j < |child.children| && IsArgumentlessCall(child.children[j])
  }

  /** One table-definition child: a column definition appends one column, anything else none. */
  lemma TableStepShape(order: Order, table: Table, child: Node)
    ensures TableStep(order, table, child).Failure? <==> FailsToBuild(child)
    ensures TableStep(order, table, child).Success? ==>
      var next := TableStep(order, table, child).value;
      && next.schema == table.schema && next.name == table.name && next.sql == table.sql
      && if child.ColumnDefinition? || child.ComputedColumnDefinition? then
           && next.columns == table.columns + [next.columns[|table.columns|]]
           && next.columns[|table.columns|].sql == child.sql
           && next.columns[|table.columns|].computed == child.ComputedColumnDefinition?
           && BuiltColumn(order, child) == Success(next.columns[|table.columns|])
         else next.columns == table.columns
  {
    if child.ComputedColumnDefinition? {
      ComputedStepsOutcome(NewColumn(child.sql, true), child.children);
    } else if child.ColumnDefinition? {
      ColumnStepsFlags(order, ColumnState(NewColumn(child.sql, false), table.primaryKeyColumns), child.children);
      ColumnStepsColumnIgnoresKeys(order, NewColumn(child.sql, false), table.primaryKeyColumns, [], child.children);
    }
  }

  /**
   * A table-level primary key adds the names of its indexed columns, and nothing else, to
   * the key list; a column definition adds the names its inline keys give.
   */
  lemma TableKeyStep(order: Order, table: Table, child: Node)
    ensures child.PrimaryKeyConstraint? ==>
      && TableStep(order, table, child).Success?
      && TableStep(order, table, child).value.columns == table.columns
      && forall x :: x in TableStep(order, table, child).value.primaryKeyColumns <==>
           || x in table.primaryKeyColumns
           || (x.Some? && IndexedColumn(x.value) in child.children)
    ensures child.ColumnDefinition? ==>
      forall x :: x in TableStep(order, table, child).value.primaryKeyColumns <==>
        || x in table.primaryKeyColumns
        || exists i :: 0 <= i < |child.children|
                       && x in InlineKeyNames(child.children[i], NameWhenVisited(None, child.children, i))
  {
    if child.ColumnDefinition? {
      ColumnStepsKeys(order, ColumnState(NewColumn(child.sql, false), table.primaryKeyColumns), child.children);
    } else if child.PrimaryKeyConstraint? {
      var names := IndexedColumnNames(child.children);
      forall x: NString | x.Some? && IndexedColumn(x.value) in child.children ensures x in names {
        var i :| 0 <= i < |child.children| && child.children[i] == IndexedColumn(x.value);
      }
    }
  }

  /** Extraction fails exactly when a computed column holds a function call without arguments. */
  lemma {:induction false} TableStepsFailure(order: Order, table: Table, children: seq<Node>)
    ensures TableSteps(order, table, children).Failure? <==>
      exists i :: 0 <= i < |children| && FailsToBuild(children[i])
    decreases |children|
  {
    if |children| > 0 {
      var rest := children[1..];
      assert forall j :: 1 <= j < |children| ==> children[j] == rest[j - 1];
      TableStepShape(order, table, children[0]);
      match TableStep(order, table, children[0]) {
        case Failure(_) =>
        case Success(next) =>
          TableStepsFailure(order, next, rest);
          if exists i :: 0 <= i < |children| && FailsToBuild(children[i]) {
            var i :| 0 <= i < |children| && FailsToBuild(children[i]);
            assert i > 0 && FailsToBuild(rest[i - 1]);
          }
      }
    }
  }

  /**
   * Successful extraction appends exactly one column per column or computed-column
   * definition, in source order, each the column that definition builds on its own (so it
   * carries its definition's text and is computed exactly for computed definitions); the
   * existing columns, the table's identity and its source
   * are untouched.
   */
  lemma {:induction false} TableStepsColumns(order: Order, table: Table, children: seq<Node>)
    requires TableSteps(order, table, children).Success?
    ensures var t := TableSteps(order, table, children).value;
      var definitions := ColumnDefinitions(children);
      && t.schema == table.schema && t.name == table.name && t.sql == table.sql
      && |t.columns| == |table.columns| + |definitions|
      && t.columns[..|table.columns|] == table.columns
      && forall k :: 0 <= k < |definitions| ==>
           && t.columns[|table.columns| + k].sql == definitions[k].sql
           && t.columns[|table.columns| + k].computed == definitions[k].ComputedColumnDefinition?
           && BuiltColumn(order, definitions[k]) == Success(t.columns[|table.columns| + k])
    decreases |children|
  {
    if |children| > 0 {
      var child, rest := children[0], children[1..];
      TableStepShape(order, table, child);
      var next := TableStep(order, table, child).value;
      TableStepsColumns(order, next, rest);
      var t := TableSteps(order, table, children).value;
      if child.ColumnDefinition? || child.ComputedColumnDefinition? {
        assert ColumnDefinitions(children) == [child] + ColumnDefinitions(rest);
        assert t.columns[..|next.columns|] == next.columns;
      }
    }
  }

  /** Table-level and inline primary keys keep the table's list sorted and duplicate-free. */
  lemma {:induction false} TableStepsKeepKeysNormal(order: Order, table: Table, children: seq<Node>)
    requires TotalPreorder(order)
    requires Sorted(order, table.primaryKeyColumns) && NoDuplicates(table.primaryKeyColumns)
    ensures TableSteps(order, table, children).Success? ==>
      && Sorted(order, TableSteps(order, table, children).value.primaryKeyColumns)
      && NoDuplicates(TableSteps(order, table, children).value.primaryKeyColumns)
    decreases |children|
  {
    if |children| > 0 {
      var child := children[0];
      match child {
        case ColumnDefinition(sql, columnChildren) =>
          ColumnStepsKeepKeysNormal(order, ColumnState(NewColumn(sql, false), table.primaryKeyColumns), columnChildren);
        case PrimaryKeyConstraint(_, constraintChildren) =>
          MergeSortedDistinct(order, table.primaryKeyColumns, IndexedColumnNames(constraintChildren));
        case _ =>
      }
      match TableStep(order, table, child) {
        case Failure(_) =>
        case Success(next) => TableStepsKeepKeysNormal(order, next, children[1..]);
      }
    }
  }
}
