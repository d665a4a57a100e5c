/** A parsed table: its columns, its primary-key column names, and the queries the generators ask of it. */
module Tables {
  import opened Wrappers
  import opened Text
  import opened Queries
  import opened SqlDom
  import opened TableColumns

  /** The exceptions the parser and the model can throw. */
  datatype Fault =
      /** The validator's "Missing names for ..." error: the offending names and the table's diagnostic line. */
    | MissingNames(names: seq<NString>, table: string)
      /** The validator's "Missing types for ..." error. */
    | MissingTypes(names: seq<NString>, table: string)
      /** A null dereference; `site` names the member where it happens. */
    | NullReference(site: string)

  datatype Table = Table(
    schema: string,
    name: string,
    sql: string,
    columns: seq<TableColumn>,
    primaryKeyColumns: seq<NString>)
  {
    /** More than one key entry: the list is neither empty nor a single name. */
    predicate MultiplePrimaryKeys()
      ensures !MultiplePrimaryKeys() <==> primaryKeyColumns == [] || primaryKeyColumns == [primaryKeyColumns[0]]
    {
      |primaryKeyColumns| > 1
    }

    predicate HasIdentityColumn()
      ensures HasIdentityColumn() <==> exists i :: 0 <= i < |columns| && columns[i].IsIdentity()
    {
      Any(columns, (c: TableColumn) => c.IsIdentity())
    }

    /**
     * Whether some primary-key entry equals `columnName` ignoring case. The entries are
     * compared with the instance `Equals`, so a null entry reached before a match throws.
     */
    function IsPrimaryKey(columnName: NString): (r: Result<bool, Fault>)
      ensures (forall i :: 0 <= i < |primaryKeyColumns| ==> primaryKeyColumns[i].Some?) ==>
        r == Success(exists i :: 0 <= i < |primaryKeyColumns| && EqualsIgnoreCase(primaryKeyColumns[i], columnName))
      ensures r.Failure? <==> exists i :: NullBeforeMatch(primaryKeyColumns, columnName, i)
    {
      KeysContain(primaryKeyColumns, columnName)
    }

    /**
     * `$"[{Schema}].[{Name}] Columns: {Columns.Count} {string.Join(",", PrimaryKeyColumns)}"`,
     * that is `[schema].[name] Columns: <count> <keys>`: the digits after the header read back as
     * the number of columns, and the key names follow, joined by commas.
     */
    function DiagnosticString(): (r: string)
      ensures var head := "[" + schema + "].[" + name + "] Columns: ";
        var count := NatToString(|columns|);
        && |head| + |count| + 1 <= |r|
        && r[..|head|] == head
        && (forall i :: |head| <= i < |head| + |count| ==> '0' <= r[i] <= '9')
        && DigitsValue(r[|head|..|head| + |count|]) == |columns|
        && r[|head| + |count|] == ' '
        && r[|head| + |count| + 1..] == Join(",", primaryKeyColumns)
    {
      var head := "[" + schema + "].[" + name + "] Columns: ";
      var count := NatToString(|columns|);
      var r := DiagnosticHead() + Join(",", primaryKeyColumns);
      assert r == head + count + " " + Join(",", primaryKeyColumns);
      assert r[|head|..|head| + |count|] == count;
      r
    }

    function DiagnosticHead(): string {
      "[" + schema + "].[" + name + "] Columns: " + NatToString(|columns|) + " "
    }

    predicate ContainsDataType(dataType: NString)
      ensures ContainsDataType(dataType) <==>
        exists i :: 0 <= i < |columns| && EqualsIgnoreCase(columns[i].dataType, dataType)
    {
      Any(columns, (c: TableColumn) => EqualsIgnoreCase(c.dataType, dataType))
    }

    predicate ContainsNotNull()
      ensures ContainsNotNull() <==> exists i :: 0 <= i < |columns| && columns[i].IsNotNull()
    {
      Any(columns, (c: TableColumn) => c.IsNotNull())
    }

    predicate ContainsPrimaryKey()
      ensures ContainsPrimaryKey() <==> exists i :: 0 <= i < |columns| && columns[i].IsPrimaryKey()
    {
      Any(columns, (c: TableColumn) => c.IsPrimaryKey())
    }

    predicate ContainsIdentity()
      ensures ContainsIdentity() <==> exists i :: 0 <= i < |columns| && columns[i].IsIdentity()
    {
      Any(columns, (c: TableColumn) => c.IsIdentity())
    }

    /**
     * Whether the column called `name` is the table's Id column. The source dereferences the
     * column it looks up, so the column must exist.
     */
    predicate IsIdColumn(name: NString)
      requires FindColumn(columns, name).Some?
      ensures var column := columns[FindColumn(columns, name).value];
        && (MultiplePrimaryKeys() && HasIdentityColumn() ==> (IsIdColumn(name) <==> column.IsIdentity()))
        && (MultiplePrimaryKeys() && !HasIdentityColumn() ==>
              (IsIdColumn(name) <==> EqualsIgnoreCase(name, primaryKeyColumns[0])))
        && (!MultiplePrimaryKeys() ==> (IsIdColumn(name) <==> column.IsPrimaryKey()))
    {
      var column := columns[FindColumn(columns, name).value];
      if MultiplePrimaryKeys() && HasIdentityColumn() then column.IsIdentity()
      else if MultiplePrimaryKeys() && !HasIdentityColumn() then EqualsIgnoreCase(column.name, primaryKeyColumns[0])
      else column.IsPrimaryKey()
    }
  }

  /** Entry `i` of `keys` is null and no earlier entry equals `columnName` ignoring case. */
  ghost predicate NullBeforeMatch(keys: seq<NString>, columnName: NString, i: int) {
    0 <= i < |keys| && keys[i].None? && forall j :: 0 <= j < i ==> !EqualsIgnoreCase(keys[j], columnName)
  }

  /** `PrimaryKeyColumns.Any(item => item.Equals(columnName, OrdinalIgnoreCase))`. */
  function KeysContain(keys: seq<NString>, columnName: NString): (r: Result<bool, Fault>)
    ensures (forall i :: 0 <= i < |keys| ==> keys[i].Some?) ==>
      r == Success(exists i :: 0 <= i < |keys| && EqualsIgnoreCase(keys[i], columnName))
    ensures r.Failure? <==> exists i :: NullBeforeMatch(keys, columnName, i)
  {
    if |keys| == 0 then Success(false)
    else if keys[0].None? then
      assert NullBeforeMatch(keys, columnName, 0);
      Failure(NullReference("Table.IsPrimaryKey"))
    else if EqualsIgnoreCase(keys[0], columnName) then Success(true)
    else
      var r := KeysContain(keys[1..], columnName);
      assert forall i :: NullBeforeMatch(keys[1..], columnName, i) <==> NullBeforeMatch(keys, columnName, i + 1) by {
        forall i ensures NullBeforeMatch(keys[1..], columnName, i) <==> NullBeforeMatch(keys, columnName, i + 1) {
          if 0 <= i < |keys| - 1 {
            assert forall j :: 0 <= j < i ==> keys[1..][j] == keys[j + 1];
          }
        }
      }
      assert !NullBeforeMatch(keys, columnName, 0);
      assert (exists i :: NullBeforeMatch(keys, columnName, i)) ==> exists i :: NullBeforeMatch(keys[1..], columnName, i) by {
        if exists i :: NullBeforeMatch(keys, columnName, i) {
          var i :| NullBeforeMatch(keys, columnName, i);
          assert NullBeforeMatch(keys[1..], columnName, i - 1);
        }
      }
      r
  }

  /** The columns' names, in column order. */
  function Names(columns: seq<TableColumn>): (r: seq<NString>)
    ensures |r| == |columns| && forall i :: 0 <= i < |columns| ==> r[i] == columns[i].name
  {
    seq(|columns|, i requires 0 <= i < |columns| => columns[i].name)
  }

  /** The index of the first name equal to `name` ignoring case (`FirstOrDefault`), if any. */
  function FindName(names: seq<NString>, name: NString): (r: Option<nat>)
    ensures r.Some? ==> && r.value < |names| && EqualsIgnoreCase(names[r.value], name)
                        && forall j :: 0 <= j < r.value ==> !EqualsIgnoreCase(names[j], name)
    ensures r.None? ==> forall j :: 0 <= j < |names| ==> !EqualsIgnoreCase(names[j], name)
  {
    if |names| == 0 then None
    else if EqualsIgnoreCase(names[0], name) then Some(0)
    else
      match FindName(names[1..], name)
      case None => None
      case Some(i) => Some(i + 1)
  }

  /**
   * `columns.FirstOrDefault(item => string.Equals(item.Name, name, OrdinalIgnoreCase))`,
   * as an index. It depends on the columns' names only.
   */
  function FindColumn(columns: seq<TableColumn>, name: NString): (r: Option<nat>)
    ensures r.Some? ==> && r.value < |columns| && EqualsIgnoreCase(columns[r.value].name, name)
                        && forall j :: 0 <= j < r.value ==> !EqualsIgnoreCase(columns[j].name, name)
    ensures r.None? ==> forall j :: 0 <= j < |columns| ==> !EqualsIgnoreCase(columns[j].name, name)
  {
    FindName(Names(columns), name)
  }

  lemma IdentityQueriesAgree(t: Table)
    ensures t.HasIdentityColumn() == t.ContainsIdentity()
    ensures t.MultiplePrimaryKeys() <==> |t.primaryKeyColumns| > 1
  {
  }

  /**
   * The diagnostic line lists the primary-key names after the column count: splitting its
   * tail on commas gives the names back, when none of them contains a comma.
   */
  lemma DiagnosticStringListsKeys(t: Table)
    requires |t.primaryKeyColumns| > 0
    requires forall i :: 0 <= i < |t.primaryKeyColumns| ==> ',' !in Show(t.primaryKeyColumns[i])
    ensures t.DiagnosticString()[..|t.DiagnosticHead()|] == t.DiagnosticHead()
    ensures Split(t.DiagnosticString()[|t.DiagnosticHead()|..], ',')
         == seq(|t.primaryKeyColumns|, i requires 0 <= i < |t.primaryKeyColumns| => Show(t.primaryKeyColumns[i]))
  {
    assert t.DiagnosticString()[|t.DiagnosticHead()|..] == Join([','], t.primaryKeyColumns);
    SplitJoin(t.primaryKeyColumns, ',');
  }
}
