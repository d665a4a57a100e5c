/** `ValidateTable`: a finished table must name and type every column. */
module Validator {
  import opened Wrappers
  import opened Text
  import opened Queries
  import opened TableColumns
  import opened Tables

  predicate Unnamed(column: TableColumn) {
    IsNullOrWhiteSpace(column.name)
  }

  predicate Untyped(column: TableColumn) {
    IsNullOrWhiteSpace(column.dataType)
  }

  /**
   * The first check that fails decides the error: blank names are reported before blank
   * types, each error listing the offending columns' names and the table's diagnostic line.
   */
  function ValidateTable(table: Table): (r: Outcome<Fault>)
    ensures r.Fail? ==> !r.error.NullReference? && r.error.table == table.DiagnosticString() && |r.error.names| > 0
    ensures r.Fail? && r.error.MissingNames? <==> exists i :: 0 <= i < |table.columns| && Unnamed(table.columns[i])
    ensures r.Fail? && r.error.MissingTypes? <==>
      && (forall i :: 0 <= i < |table.columns| ==> !Unnamed(table.columns[i]))
      && exists i :: 0 <= i < |table.columns| && Untyped(table.columns[i])
    ensures r == Pass <==> forall i :: 0 <= i < |table.columns| ==> !Unnamed(table.columns[i]) && !Untyped(table.columns[i])
    ensures r.Fail? && r.error.MissingNames? ==>
      && (forall x :: x in r.error.names ==> IsNullOrWhiteSpace(x))
      && (forall i :: 0 <= i < |table.columns| && Unnamed(table.columns[i]) ==> table.columns[i].name in r.error.names)
      && |r.error.names| == |Where(table.columns, Unnamed)|
    ensures r.Fail? && r.error.MissingTypes? ==>
      && (forall i :: 0 <= i < |table.columns| && Untyped(table.columns[i]) ==> table.columns[i].name in r.error.names)
      && (forall x :: x in r.error.names ==> exists i :: 0 <= i < |table.columns| && Untyped(table.columns[i]) && table.columns[i].name == x)
      && |r.error.names| == |Where(table.columns, Untyped)|
  {
    var missing := Where(table.columns, Unnamed);
    FilteredNames(table.columns, Unnamed);
    if |missing| > 0 then
      Fail(MissingNames(Names(missing), table.DiagnosticString()))
    else
      var untyped := Where(table.columns, Untyped);
      FilteredNames(table.columns, Untyped);
      if |untyped| > 0 then
        Fail(MissingTypes(Names(untyped), table.DiagnosticString()))
      else
        Pass
  }

  /** The names of the columns a filter keeps: some exactly when a column qualifies, and precisely theirs. */
  lemma FilteredNames(columns: seq<TableColumn>, p: TableColumn -> bool)
    ensures var names := Names(Where(columns, p));
      && |names| == |Where(columns, p)|
      && (|names| > 0 <==> exists i :: 0 <= i < |columns| && p(columns[i]))
      && (forall i :: 0 <= i < |columns| && p(columns[i]) ==> columns[i].name in names)
      && (forall x :: x in names ==> exists i :: 0 <= i < |columns| && p(columns[i]) && columns[i].name == x)
  {
    var kept := Where(columns, p);
    var names := Names(kept);
    forall i | 0 <= i < |columns| && p(columns[i]) ensures columns[i].name in names {
      assert columns[i] in kept;
      var k :| 0 <= k < |kept| && kept[k] == columns[i];
      assert names[k] == columns[i].name;
    }
    forall x | x in names ensures exists i :: 0 <= i < |columns| && p(columns[i]) && columns[i].name == x {
      var k :| 0 <= k < |names| && names[k] == x;
      assert kept[k] in kept;
      var i :| 0 <= i < |columns| && columns[i] == kept[k];
    }
    if |names| > 0 {
      assert names[0] in names;
    }
  }

  /** A table whose every column is named and typed passes. */
  lemma PassesWhenComplete(table: Table)
    requires forall i :: 0 <= i < |table.columns| ==> !Unnamed(table.columns[i]) && !Untyped(table.columns[i])
    ensures ValidateTable(table) == Pass
  {
  }

  /** A table with an unnamed column is rejected, the error naming the table by its schema-qualified name. */
  lemma MissingNameReportsTable(table: Table, i: nat)
    requires i < |table.columns| && Unnamed(table.columns[i])
    ensures ValidateTable(table).Fail? && ValidateTable(table).error.MissingNames?
    ensures var head := "[" + table.schema + "].[" + table.name + "]";
      |head| <= |ValidateTable(table).error.table| && ValidateTable(table).error.table[..|head|] == head
  {
    var head := "[" + table.schema + "].[" + table.name + "]";
    var full := head + " Columns: ";
    var line := table.DiagnosticString();
    assert line[..|full|] == full;
    assert line[..|head|] == full[..|head|] == head;
  }
}
