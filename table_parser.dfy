/**
 * `ProcessCreateTable`: one parsed CREATE TABLE statement becomes a `Table` in three passes,
 * extraction, resolution and validation.
 */
module TableParser {
  import opened Wrappers
  import opened Text
  import opened SqlDom
  import opened Ordering
  import opened TableColumns
  import opened Tables
  import opened Extractor
  import opened ExtractorProperties
  import opened Resolver
  import opened Validator

  /** The table a statement starts from: its schema, name and source text, and nothing else yet. */
  function NewTable(statement: CreateTableStatement): Table {
    Table(statement.name.schemaName, statement.name.objectName, statement.sql, [], [])
  }

  /** The three passes; the first fault any of them raises ends the statement. */
  function CreateTable(order: Order, statement: CreateTableStatement): Result<Table, Fault> {
    match TableSteps(order, NewTable(statement), statement.definition)
    case Failure(e) => Failure(e)
    case Success(extracted) =>
      var resolved := Resolve(extracted);
      match ValidateTable(resolved)
      case Fail(e) => Failure(e)
      case Pass => Success(resolved)
  }

  method ProcessCreateTable(order: Order, statement: CreateTableStatement) returns (r: Result<Table, Fault>)
    ensures r == CreateTable(order, statement)
  {
    var table := NewTable(statement);
    var extracted := ProcessTableDefinition(order, statement.definition, table);
    if extracted.Failure? {
      return Failure(extracted.error);
    }
    var resolved := UpdateInterColumnInformation(extracted.value);
    var outcome := ValidateTable(resolved);
    if outcome.Fail? {
      return Failure(outcome.error);
    }
    r := Success(resolved);
  }

  /**
   * What a statement that gets through all three passes yields: the statement's schema,
   * name and text; one column per column definition, in order, with that definition's text
   * and computed flag; a name and a type on every column; and a sorted, duplicate-free
   * key list.
   */
  lemma CreateTableSucceeds(order: Order, statement: CreateTableStatement)
    requires TotalPreorder(order)
    requires CreateTable(order, statement).Success?
    ensures var t := CreateTable(order, statement).value;
      var definitions := ColumnDefinitions(statement.definition);
      && t.schema == statement.name.schemaName && t.name == statement.name.objectName && t.sql == statement.sql
      && |t.columns| == |definitions|
      && (forall k :: 0 <= k < |definitions| ==>
            t.columns[k].sql == definitions[k].sql && t.columns[k].computed == definitions[k].ComputedColumnDefinition?)
      && (forall k :: 0 <= k < |t.columns| ==> !IsNullOrWhiteSpace(t.columns[k].name) && !IsNullOrWhiteSpace(t.columns[k].dataType))
      && Sorted(order, t.primaryKeyColumns) && NoDuplicates(t.primaryKeyColumns)
  {
    var start := NewTable(statement);
    TableStepsColumns(order, start, statement.definition);
    TableStepsKeepKeysNormal(order, start, statement.definition);
    ResolveSpec(TableSteps(order, start, statement.definition).value);
  }

  /**
   * A statement fails exactly when a computed column holds an argumentless function call
   * (a null dereference), or else when the resolved table has an unnamed or untyped column.
   */
  lemma CreateTableFails(order: Order, statement: CreateTableStatement)
    ensures var r := CreateTable(order, statement);
      var extracted := TableSteps(order, NewTable(statement), statement.definition);
      && (r.Failure? && r.error.NullReference? <==>
            exists i :: 0 <= i < |statement.definition| && FailsToBuild(statement.definition[i]))
      && (extracted.Success? ==>
            (r.Failure? <==> exists k :: 0 <= k < |Resolve(extracted.value).columns|
                                && (Unnamed(Resolve(extracted.value).columns[k]) || Untyped(Resolve(extracted.value).columns[k]))))
  {
    var extracted := TableSteps(order, NewTable(statement), statement.definition);
    TableStepsFailure(order, NewTable(statement), statement.definition);
    if extracted.Failure? {
      ComputedFailureIsNullReference(order, NewTable(statement), statement.definition);
    }
  }

  /** The only fault extraction raises is the null dereference. */
  lemma {:induction false} ComputedFailureIsNullReference(order: Order, table: Table, children: seq<Node>)
    ensures TableSteps(order, table, children).Failure? ==> TableSteps(order, table, children).error.NullReference?
    decreases |children|
  {
    if |children| > 0 {
      match TableStep(order, table, children[0]) {
        case Failure(_) =>
          var child := children[0];
          assert child.ComputedColumnDefinition?;
          ComputedStepsFault(NewColumn(child.sql, true), child.children);
        case Success(next) =>
          ComputedFailureIsNullReference(order, next, children[1..]);
      }
    }
  }

  /** Building a computed column can only fail with the null dereference. */
  lemma {:induction false} ComputedStepsFault(column: TableColumn, children: seq<Node>)
    ensures ComputedSteps(column, children).Failure? ==> ComputedSteps(column, children).error.NullReference?
    decreases |children|
  {
    if |children| > 0 {
      match ComputedStep(column, children[0]) {
        case Failure(_) =>
        case Success(next) => ComputedStepsFault(next, children[1..]);
      }
    }
  }

  /** Extraction over two runs of children is extraction over the first, then over the second. */
  lemma {:induction false} TableStepsAppend(order: Order, table: Table, a: seq<Node>, b: seq<Node>)
    ensures TableSteps(order, table, a + b)
         == match TableSteps(order, table, a)
            case Failure(e) => Failure(e)
            case Success(t) => TableSteps(order, t, b)
    decreases |a|
  {
    if |a| > 0 {
      assert (a + b)[0] == a[0] && (a + b)[1..] == a[1..] + b;
      match TableStep(order, table, a[0]) {
        case Failure(_) =>
        case Success(next) => TableStepsAppend(order, next, a[1..], b);
      }
    } else {
      assert a + b == b;
    }
  }

  /**
   * A table-definition child that is neither a column, a computed column nor a primary key
   * (a constraint, an unrecognised node, ...) is skipped: the statement yields the same
   * result without it.
   */
  lemma IgnoredChild(order: Order, statement: CreateTableStatement, before: seq<Node>, child: Node, after: seq<Node>)
    requires !child.ColumnDefinition? && !child.ComputedColumnDefinition? && !child.PrimaryKeyConstraint?
    requires statement.definition == before + [child] + after
    ensures CreateTable(order, statement) == CreateTable(order, statement.(definition := before + after))
  {
    var start := NewTable(statement);
    TableStepsAppend(order, start, before + [child], after);
    TableStepsAppend(order, start, before, [child]);
    TableStepsAppend(order, start, before, after);
    match TableSteps(order, start, before) {
      case Failure(_) =>
      case Success(t) =>
        assert TableSteps(order, t, [child]) == Success(t);
    }
  }
}
